/** The Kafka producer service: a client exists exactly when the service is
    enabled; `start` connects with a bounded number of attempts and a sleep
    after every refused attempt; `publish` is a no-op when disabled. The
    broker is an oracle: `connect(k)` is the outcome of attempt k and
    `sendOk` the outcome of one `send_and_wait`. */
module Producer {
  import opened Common

  const DefaultRetries: int := 10
  const DefaultDelay: int := 3

  datatype ClientState = Created | Started | Stopped

  datatype Publication = Publication(topic: string, message: Json)

  /** The `AIOKafkaProducer`: its lifecycle state and what the broker acknowledged. */
  datatype ProducerClient = ProducerClient(state: ClientState, sent: seq<Publication>)

  /** Outcome of one `await producer.start()`: connected, a `KafkaConnectionError`, or any other exception. */
  datatype ConnectOutcome = Connected | ConnectionRefused | OtherFailure

  /** How `start` ended: returned without trying (disabled), returned connected,
      returned after exhausting the attempts, or raised. */
  datatype StartResult = Skipped | Ready | GaveUp | Raised

  datatype StartTrace = StartTrace(attempts: nat, delays: nat, result: StartResult)

  function Shift(t: StartTrace, n: nat): StartTrace
  {
    StartTrace(t.attempts + n, t.delays + n, t.result)
  }

  /** The attempts `attempt`, `attempt + 1`, ..., `retries` of the retry loop. */
  function RetryFrom(attempt: int, retries: int, connect: int -> ConnectOutcome): StartTrace
    decreases retries - attempt + 1
  {
    if attempt > retries then StartTrace(0, 0, GaveUp)
    else
      match connect(attempt)
      case Connected => StartTrace(1, 0, Ready)
      case OtherFailure => StartTrace(1, 0, Raised)
      case ConnectionRefused => Shift(RetryFrom(attempt + 1, retries, connect), 1)
  }

  /** What `start(retries, delay)` does, as attempts made, sleeps taken and how it ended. */
  function StartSpec(enabled: bool, hasClient: bool, retries: int, connect: int -> ConnectOutcome): StartTrace
  {
    if !enabled || !hasClient then StartTrace(0, 0, Skipped) else RetryFrom(1, retries, connect)
  }

  function Max0(n: int): nat
  {
    if n < 0 then 0 else n
  }

  /** At most `retries` attempts; a sleep follows every refused attempt, so an
      attempt that ends the loop early is the only one without a sleep. */
  lemma {:induction false} RetryFromBounds(attempt: int, retries: int, connect: int -> ConnectOutcome)
    requires attempt >= 1
    ensures var t := RetryFrom(attempt, retries, connect);
            && t.attempts <= Max0(retries - attempt + 1)
            && (t.result == GaveUp ==> t.delays == t.attempts && t.attempts == Max0(retries - attempt + 1))
            && (t.result != GaveUp ==> t.result in {Ready, Raised} && t.attempts >= 1 && t.delays == t.attempts - 1)
    decreases retries - attempt + 1
  {
    if attempt <= retries && connect(attempt) == ConnectionRefused {
      RetryFromBounds(attempt + 1, retries, connect);
    }
  }

  /** A broker that first answers at attempt K (K <= retries): exactly K attempts and K - 1 sleeps. */
  lemma {:induction false} RetryFromAvailableAt(attempt: int, k: int, retries: int, connect: int -> ConnectOutcome)
    requires 1 <= attempt <= k <= retries
    requires forall j :: attempt <= j < k ==> connect(j) == ConnectionRefused
    requires connect(k) == Connected
    ensures RetryFrom(attempt, retries, connect) == StartTrace(k - attempt + 1, k - attempt, Ready)
    decreases k - attempt
  {
    if attempt < k {
      RetryFromAvailableAt(attempt + 1, k, retries, connect);
    }
  }

  /** A broker that never answers: exactly `retries` attempts and `retries` sleeps, and no exception. */
  lemma {:induction false} RetryFromNeverAvailable(attempt: int, retries: int, connect: int -> ConnectOutcome)
    requires attempt >= 1
    requires forall j :: attempt <= j <= retries ==> connect(j) == ConnectionRefused
    ensures RetryFrom(attempt, retries, connect)
         == StartTrace(Max0(retries - attempt + 1), Max0(retries - attempt + 1), GaveUp)
    decreases retries - attempt + 1
  {
    if attempt <= retries {
      assert connect(attempt) == ConnectionRefused;
      RetryFromNeverAvailable(attempt + 1, retries, connect);
      assert RetryFrom(attempt, retries, connect) == Shift(RetryFrom(attempt + 1, retries, connect), 1);
    }
  }

  /** `start()` with its default arguments, as the application's startup calls it,
      against a broker that never answers: ten attempts, ten sleeps, and a
      normal return that leaves the client unstarted. */
  lemma DefaultStartNeverAvailable(connect: int -> ConnectOutcome)
    requires forall j :: 1 <= j <= DefaultRetries ==> connect(j) == ConnectionRefused
    ensures StartSpec(true, true, DefaultRetries, connect) == StartTrace(10, 10, GaveUp)
  {
    RetryFromNeverAvailable(1, DefaultRetries, connect);
  }

  /** The error `publish` raises, if any. */
  function PublishError(enabled: bool, client: Option<ProducerClient>, sendOk: bool): (r: Option<Error>)
    ensures !enabled ==> r.None?
    ensures enabled && client.None? ==> r == Some(RuntimeError("Kafka producer not initialized"))
    ensures enabled && client.Some? ==> (r.None? <==> sendOk)
  {
    if !enabled then None
    else if client.None? then Some(RuntimeError("Kafka producer not initialized"))
    else if sendOk then None
    else Some(KafkaError)
  }

  /** The client after `publish`: the message is recorded only when it was actually sent. */
  function AfterPublish(enabled: bool, client: Option<ProducerClient>, topic: string, message: Json, sendOk: bool)
    : (c: Option<ProducerClient>)
    ensures c.Some? <==> client.Some?
    ensures c != client ==> enabled && sendOk
    ensures enabled && client.Some? && sendOk ==>
              c.value.sent == client.value.sent + [Publication(topic, message)] && c.value.state == client.value.state
  {
    if enabled && client.Some? && sendOk then
      Some(client.value.(sent := client.value.sent + [Publication(topic, message)]))
    else client
  }

  class KafkaProducerService {
    const enabled: bool
    var client: Option<ProducerClient>

    /** The constructor's invariant: a client exists exactly when enabled. */
    ghost predicate Valid()
      reads this
    {
      enabled <==> client.Some?
    }

    constructor (bootstrapServers: string, clientId: string, enabled: bool)
      ensures Valid() && this.enabled == enabled
      ensures client == if enabled then Some(ProducerClient(Created, [])) else None
    {
      this.enabled := enabled;
      if enabled {
        client := Some(ProducerClient(Created, []));
      } else {
        client := None;
      }
    }

    /** `start(retries, delay)`: `sleeps` lists the `asyncio.sleep` durations in order. */
    method Start(retries: int, delay: int, connect: int -> ConnectOutcome) returns (trace: StartTrace, sleeps: seq<int>)
      modifies this
      ensures Valid() == old(Valid())
      ensures trace == StartSpec(enabled, old(client).Some?, retries, connect)
      ensures |sleeps| == trace.delays && forall i :: 0 <= i < |sleeps| ==> sleeps[i] == delay
      ensures client == if trace.result == Ready then Some(old(client).value.(state := Started)) else old(client)
    {
      sleeps := [];
      if !enabled || client.None? {
        trace := StartTrace(0, 0, Skipped);
        return;
      }
      var attempt := 1;
      while attempt <= retries
        invariant 1 <= attempt && (retries >= 1 ==> attempt <= retries + 1)
        invariant |sleeps| == attempt - 1 && forall i :: 0 <= i < |sleeps| ==> sleeps[i] == delay
        invariant RetryFrom(1, retries, connect) == Shift(RetryFrom(attempt, retries, connect), attempt - 1)
        invariant client == old(client)
        decreases retries - attempt + 1
      {
        match connect(attempt)
        case Connected =>
          assert RetryFrom(attempt, retries, connect) == StartTrace(1, 0, Ready);
          client := Some(client.value.(state := Started));
          trace := StartTrace(attempt, attempt - 1, Ready);
          return;
        case OtherFailure =>
          assert RetryFrom(attempt, retries, connect) == StartTrace(1, 0, Raised);
          trace := StartTrace(attempt, attempt - 1, Raised);
          return;
        case ConnectionRefused =>
          assert RetryFrom(attempt, retries, connect) == Shift(RetryFrom(attempt + 1, retries, connect), 1);
          sleeps := sleeps + [delay];
        attempt := attempt + 1;
      }
      trace := StartTrace(attempt - 1, attempt - 1, GaveUp);
    }

    /** `start()` with its default arguments: up to `DefaultRetries` attempts,
        every sleep `DefaultDelay` seconds long. */
    method StartWithDefaults(connect: int -> ConnectOutcome) returns (trace: StartTrace, sleeps: seq<int>)
      modifies this
      ensures Valid() == old(Valid())
      ensures trace == StartSpec(enabled, old(client).Some?, DefaultRetries, connect)
      ensures trace.attempts <= DefaultRetries
      ensures |sleeps| == trace.delays && forall i :: 0 <= i < |sleeps| ==> sleeps[i] == DefaultDelay
      ensures client == if trace.result == Ready then Some(old(client).value.(state := Started)) else old(client)
    {
      RetryFromBounds(1, DefaultRetries, connect);
      trace, sleeps := Start(DefaultRetries, DefaultDelay, connect);
    }

    /** `stop`: stops the client only when one exists. */
    method Stop()
      modifies this
      ensures Valid() == old(Valid())
      ensures client == if old(client).Some? then Some(old(client).value.(state := Stopped)) else None
    {
      if client.Some? {
        client := Some(client.value.(state := Stopped));
      }
    }

    /** `publish(topic, message)`: returns `Pass` or the exception it raises. */
    method Publish(topic: string, message: Json, sendOk: bool) returns (r: Outcome<Error>)
      modifies this
      ensures r.Fail? <==> PublishError(enabled, old(client), sendOk).Some?
      ensures r.Fail? ==> r.error == PublishError(enabled, old(client), sendOk).value
      ensures client == AfterPublish(enabled, old(client), topic, message, sendOk)
      ensures old(Valid()) ==> r != Fail(RuntimeError("Kafka producer not initialized"))
    {
      if !enabled {
        return Pass;
      }
      if client.None? {
        return Fail(RuntimeError("Kafka producer not initialized"));
      }
      if sendOk {
        client := Some(client.value.(sent := client.value.sent + [Publication(topic, message)]));
        r := Pass;
      } else {
        r := Fail(KafkaError);
      }
    }
  }
}
