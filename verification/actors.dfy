/** The vocabulary shared by every actor and the supervisor: actor kinds,
    actor identities and the control messages actors send upwards. */
module Actors {

  /** A `Uuid`. Fresh identities are passed in by the caller; the model never
      generates them. */
  type ActorId = nat

  /** `ActorType`: the name under which a persistent actor's factory is
      registered, or `Dynamic` for one-shot actors. */
  datatype ActorType =
    | AggTradeActor
    | KlinesActor
    | OrderBookActor
    | GatewayActor
    | MarkPriceActor
    | ForceOrderActor
    | Dynamic

  /** `ControlMessage`: what an actor can tell the supervisor. `Spawn` carries
      the actor to start; the model keeps only its identity. */
  datatype ControlMessage =
    | Spawn(actor: ActorId)
    | Heartbeat(id: ActorId)
    | Shutdown(id: ActorId)
    | Error(id: ActorId, reason: string)
}
