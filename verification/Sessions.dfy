/** A relay session as a value (pkg/relay/session.go), over any type of session id and of connection. */
module Sessions {
  import opened Wrappers

  const GRACE_PERIOD := 30

  /** A frame and the connection whose handler sent it. */
  datatype Item<E> = Item(e: E, from: nat)

  datatype Session<Id, C> = Session(id: Id, createdAt: int, closed: bool, publisher: Option<C>, subscribers: map<string, C>)

  function NewSession<Id, C>(id: Id, now: int): (s: Session<Id, C>) {
    Session(id, now, false, None, map[])
  }

  predicate IsEmpty<Id, C>(s: Session<Id, C>) {
    s.closed || (s.publisher.None? && |s.subscribers| == 0)
  }

  predicate IsReapable<Id, C>(s: Session<Id, C>, now: int) {
    IsEmpty(s) && now - s.createdAt >= GRACE_PERIOD
  }

  function WithPublisher<Id, C>(s: Session<Id, C>, c: C): (r: Session<Id, C>) {
    s.(publisher := Some(c))
  }

  function WithSubscriber<Id, C>(s: Session<Id, C>, key: string, c: C): (r: Session<Id, C>) {
    s.(subscribers := s.subscribers[key := c])
  }

  function WithoutSubscriber<Id, C>(s: Session<Id, C>, key: string): (r: Session<Id, C>) {
    s.(subscribers := s.subscribers - {key})
  }

  /** Close: the first one lets everybody go, a second one returns at once. */
  function Shut<Id, C>(s: Session<Id, C>): (r: Session<Id, C>) {
    if s.closed then s else s.(closed := true, publisher := None, subscribers := map[])
  }
}
