/** The process-wide producer slot: set once at startup, read by every
    request that publishes. */
module Registry {
  import opened Common
  import opened Producer

  const NotInitializedMessage: string := "Kafka producer is not initialized"

  /** The module-global `_kafka_producer`. */
  class ProducerRegistry {
    var current: KafkaProducerService?

    /** At import time the slot is empty. */
    constructor ()
      ensures current == null
    {
      current := null;
    }

    /** `set_kafka_producer`: a later call overwrites an earlier one. */
    method SetKafkaProducer(producer: KafkaProducerService)
      modifies this
      ensures current == producer
    {
      current := producer;
    }

    /** `get_kafka_producer_instance`: the stored producer, or the `RuntimeError` it raises
        before any `set`. Reading leaves the slot as it is. */
    method GetKafkaProducerInstance() returns (r: Result<KafkaProducerService, Error>)
      ensures current == null ==> r == Failure(RuntimeError(NotInitializedMessage))
      ensures current != null ==> r == Success(current)
    {
      if current == null {
        return Failure(RuntimeError(NotInitializedMessage));
      }
      return Success(current);
    }
  }

  /** After `set(p)`, `get` returns p, whatever was stored before; after a second
      `set(q)`, it returns q. */
  method SetThenGet(registry: ProducerRegistry, p: KafkaProducerService, q: KafkaProducerService)
    returns (first: Result<KafkaProducerService, Error>, second: Result<KafkaProducerService, Error>)
    modifies registry
    ensures first == Success(p) && second == Success(q) && registry.current == q
  {
    registry.SetKafkaProducer(p);
    first := registry.GetKafkaProducerInstance();
    registry.SetKafkaProducer(q);
    second := registry.GetKafkaProducerInstance();
  }
}
