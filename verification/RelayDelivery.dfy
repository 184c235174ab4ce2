/** What the relay does deliver, over every run of its handlers: nothing is dropped on the way but what was refused. */
module RelayDelivery {
  import opened Wrappers
  import opened EnvelopeCodec
  import opened Sessions
  import opened RelayRuns
  import opened RelaySafety

  // ----- what reaches a connection -----

  /** The frame an action puts on connection h: a handshake that waited for a publisher, a frame passed up to it, or a
      publisher's frame that a subscriber's queue took. */
  function HandedBy(s: Relay, a: Action, h: nat): (items: seq<Item<Envelope>>)
    requires Enabled(s, a)
  {
    match a
    case GreetOne(g, key) =>
      var sub := s.heap[s.hs[g].phase.r].subscribers[key];
      if g == h && sub < |s.hs| then [Item(s.hs[sub].first, sub)] else []
    case SendUp(g, ok) =>
      if ok && s.hs[g].phase.to == Some(h) then [Item(if s.hs[g].phase.Asking? then s.hs[g].phase.e else s.hs[g].first, g)] else []
    case Offer(g, key, ok) => if ok && s.hs[g].phase.todo[key] == h then [Item(s.hs[g].phase.e, g)] else []
    case _ => []
  }

  function Handed(s: Relay, run: seq<Action>, h: nat): (items: seq<Item<Envelope>>)
    requires Runs(s, run)
    decreases |run|
  {
    if run == [] then [] else HandedBy(s, run[0], h) + Handed(Step(s, run[0]), run[1..], h)
  }

  /** What connection h has been given, from the start. */
  function GotBy(s: Relay, h: nat): (items: seq<Item<Envelope>>) {
    if h < |s.hs| then s.hs[h].got else []
  }

  lemma {:induction false} SendingGot(s: Relay, a: Action, h: nat)
    requires Enabled(s, a) && (a.GreetOne? || a.SendUp? || a.Offer?)
    requires a.SendUp? && s.hs[a.h].phase.to.Some? ==> s.hs[a.h].phase.to.value < |s.hs|
    requires a.Offer? ==> s.hs[a.h].phase.todo[a.key] < |s.hs|
    ensures GotBy(Step(s, a), h) == GotBy(s, h) + HandedBy(s, a, h)
  {
  }

  lemma {:induction false} SilentGot(s: Relay, a: Action, h: nat)
    requires Enabled(s, a) && !a.GreetOne? && !a.SendUp? && !a.Offer?
    ensures GotBy(Step(s, a), h) == GotBy(s, h)
  {
  }

  lemma {:induction false} GotStep(s: Relay, a: Action, h: nat)
    requires Inv(s) && Enabled(s, a)
    ensures GotBy(Step(s, a), h) == GotBy(s, h) + HandedBy(s, a, h)
  {
    if a.GreetOne? || a.SendUp? || a.Offer? {
      assert HandlerOk(s, s.hs[a.h]);
      if a.Offer? {
        assert Serves(s, s.hs[a.h].phase.todo[a.key], s.hs[a.h].phase.r);
      }
      SendingGot(s, a, h);
    } else {
      SilentGot(s, a, h);
    }
  }

  /** Over every run: what a connection has been given is exactly what was handed to it, in that order. */
  lemma {:induction false} GotOverRun(s0: Relay, run: seq<Action>, h: nat)
    requires Initial(s0) && Runs(s0, run)
    ensures GotBy(Reached(s0, run), h) == Handed(s0, run, h)
  {
    InitialInv(s0);
    GotFrom(s0, run, h);
    assert [] + Handed(s0, run, h) == Handed(s0, run, h);
  }

  lemma {:induction false} GotFrom(s: Relay, run: seq<Action>, h: nat)
    requires Inv(s) && Runs(s, run)
    ensures GotBy(Reached(s, run), h) == GotBy(s, h) + Handed(s, run, h)
    decreases |run|
  {
    if run == [] {
      assert GotBy(s, h) + [] == GotBy(s, h);
    } else {
      var t := Step(s, run[0]);
      StepInv(s, run[0]);
      GotStep(s, run[0], h);
      GotFrom(t, run[1..], h);
      Regrouped(GotBy(s, h), HandedBy(s, run[0], h), Handed(t, run[1..], h));
    }
  }

  lemma {:induction false} Regrouped<T>(a: seq<T>, b: seq<T>, d: seq<T>)
    ensures (a + b) + d == a + (b + d)
  {
  }

  /** What a subscriber or a visitor sends up is addressed to the publisher its session points to when it looks: the
      handshake of one that has just joined, the frame of one that is listening, the request of a visitor. */
  lemma {:induction false} PassesUp(s: Relay, h: nat, e: Envelope)
    requires Enabled(s, LookUp(h, e))
    ensures var p, q := s.hs[h].phase, Step(s, LookUp(h, e)).hs[h].phase;
      && (q.Asking? || q.Calling?) && q.to == s.heap[p.r].publisher && q.r == p.r
      && (q.Asking? ==> q.key == p.key && q.e == if p.Joined? then s.hs[h].first else e)
      && (q.Calling? <==> p.Visiting?)
    ensures var t := Step(s, LookUp(h, e));
      Enabled(t, SendUp(h, true)) && forall pub: nat :: s.heap[s.hs[h].phase.r].publisher == Some(pub) ==>
        HandedBy(t, SendUp(h, true), pub) == [Item(if s.hs[h].phase.Listening? then e else s.hs[h].first, h)]
  {
  }

  // ----- a broadcast reaches everybody -----

  /** Handler h offered its frame to the subscriber under this key during the run, whether or not it was taken. */
  predicate WasOffered(run: seq<Action>, h: nat, key: string) {
    exists i :: 0 <= i < |run| && run[i].Offer? && run[i].h == h && run[i].key == key
  }

  /** The other handlers stay where they are. */
  predicate OnlyMoves(s: Relay, t: Relay, h: nat) {
    |t.hs| == |s.hs| && forall g :: 0 <= g < |s.hs| && g != h ==> t.hs[g].phase == s.hs[g].phase
  }

  predicate NobodyMoves(s: Relay, t: Relay) {
    |s.hs| <= |t.hs| && forall g :: 0 <= g < |s.hs| ==> t.hs[g].phase == s.hs[g].phase
  }

  lemma {:induction false} OwnMove(s: Relay, a: Action)
    requires Enabled(s, a) && (a.Greeted? || a.LookUp? || a.Forward? || a.Forwarded? || a.HangUp? || a.TestEmpty?)
    ensures OnlyMoves(s, Step(s, a), a.h)
  {
  }

  lemma {:induction false} SendMove(s: Relay, a: Action)
    requires Enabled(s, a) && (a.SendUp? || a.Offer? || a.GreetOne?)
    ensures OnlyMoves(s, Step(s, a), a.h)
  {
  }

  lemma {:induction false} RemoveMove(s: Relay, a: Action)
    requires Enabled(s, a) && (a.RemoveOwn? || a.RemoveById?)
    ensures OnlyMoves(s, Step(s, a), a.h)
  {
  }

  lemma {:induction false} RegisterMove(s: Relay, a: Action)
    requires Enabled(s, a) && a.Register?
    ensures OnlyMoves(s, Step(s, a), a.h)
  {
  }

  lemma {:induction false} FirstMove(s: Relay, a: Action)
    requires Enabled(s, a) && a.First?
    ensures NobodyMoves(s, Step(s, a))
  {
  }

  lemma {:induction false} NoMove(s: Relay, a: Action)
    requires Enabled(s, a) && (a.RemoveOrphan? || a.CloseRemoved? || a.WriteFails? || a.ReapTest? || a.ReapClose? || a.Discard?)
    ensures NobodyMoves(s, Step(s, a)) && |Step(s, a).hs| == |s.hs|
  {
  }

  /** Only a first frame adds a handler. */
  lemma {:induction false} SameHandlers(s: Relay, a: Action)
    requires Enabled(s, a)
    ensures !a.First? ==> |Step(s, a).hs| == |s.hs|
  {
    if a.Greeted? || a.LookUp? || a.Forward? || a.Forwarded? || a.HangUp? || a.TestEmpty? {
      OwnMove(s, a);
    } else if a.SendUp? || a.Offer? || a.GreetOne? {
      SendMove(s, a);
    } else if a.RemoveOwn? || a.RemoveById? {
      RemoveMove(s, a);
    } else if a.Register? {
      RegisterMove(s, a);
    } else if !a.First? {
      NoMove(s, a);
    }
  }

  /** Handler h is where it was, unless the action is its own. */
  lemma {:induction false} StaysPut(s: Relay, a: Action, h: nat)
    requires Enabled(s, a) && h < |s.hs|
    requires (a.Register? || a.GreetOne? || a.Greeted? || a.LookUp? || a.SendUp? || a.Forward? || a.Offer? || a.Forwarded?
              || a.HangUp? || a.RemoveOwn? || a.TestEmpty? || a.RemoveById?) ==> a.h != h
    ensures h < |Step(s, a).hs| && Step(s, a).hs[h].phase == s.hs[h].phase
  {
    if a.Greeted? || a.LookUp? || a.Forward? || a.Forwarded? || a.HangUp? || a.TestEmpty? {
      OwnMove(s, a);
    } else if a.SendUp? || a.Offer? || a.GreetOne? {
      SendMove(s, a);
    } else if a.RemoveOwn? || a.RemoveById? {
      RemoveMove(s, a);
    } else if a.Register? {
      RegisterMove(s, a);
    } else if a.First? {
      FirstMove(s, a);
    } else {
      NoMove(s, a);
    }
  }

  lemma {:induction false} OfferMove(s: Relay, a: Action)
    requires Enabled(s, a) && a.Offer?
    ensures var t := Step(s, a);
      a.h < |t.hs| && t.hs[a.h].phase == s.hs[a.h].phase.(todo := s.hs[a.h].phase.todo - {a.key})
  {
  }

  lemma {:induction false} SendingStep(s: Relay, a: Action, h: nat)
    requires Enabled(s, a) && h < |s.hs| && s.hs[h].phase.Sending? && a != Forwarded(h)
    ensures var t := Step(s, a);
      && h < |t.hs| && t.hs[h].phase.Sending? && t.hs[h].phase.e == s.hs[h].phase.e
      && (if a.Offer? && a.h == h then t.hs[h].phase.todo == s.hs[h].phase.todo - {a.key} else t.hs[h].phase == s.hs[h].phase)
  {
    if a.Offer? && a.h == h {
      OfferMove(s, a);
    } else {
      StaysPut(s, a, h);
    }
  }

  /** Until its broadcast is over, a handler still has to offer the frame to everybody it has not offered it to. */
  lemma {:induction false} StillToOffer(s: Relay, run: seq<Action>, h: nat, key: string)
    requires Runs(s, run) && h < |s.hs| && s.hs[h].phase.Sending? && Forwarded(h) !in run && key in s.hs[h].phase.todo
    ensures var t := Reached(s, run);
      && h < |t.hs| && t.hs[h].phase.Sending? && t.hs[h].phase.e == s.hs[h].phase.e
      && (key in t.hs[h].phase.todo || WasOffered(run, h, key))
    decreases |run|
  {
    if run != [] {
      var a := run[0];
      SendingStep(s, a, h);
      if a.Offer? && a.h == h && a.key == key {
        assert run[0].Offer?;
        StaysSending(Step(s, a), run[1..], h);
      } else {
        StillToOffer(Step(s, a), run[1..], h, key);
        if WasOffered(run[1..], h, key) {
          var i :| 0 <= i < |run[1..]| && run[1..][i].Offer? && run[1..][i].h == h && run[1..][i].key == key;
          assert run[i + 1] == run[1..][i];
        }
      }
    }
  }

  lemma {:induction false} StaysSending(s: Relay, run: seq<Action>, h: nat)
    requires Runs(s, run) && h < |s.hs| && s.hs[h].phase.Sending? && Forwarded(h) !in run
    ensures var t := Reached(s, run); h < |t.hs| && t.hs[h].phase.Sending? && t.hs[h].phase.e == s.hs[h].phase.e
    decreases |run|
  {
    if run != [] {
      SendingStep(s, run[0], h);
      StaysSending(Step(s, run[0]), run[1..], h);
    }
  }

  /** Over every run: from the snapshot of a broadcast to its end, the frame is offered to every subscriber that was in the
      session at the snapshot. */
  lemma {:induction false} BroadcastReachesAll(s0: Relay, before: seq<Action>, h: nat, e: Envelope, between: seq<Action>, key: string)
    requires Initial(s0) && Runs(s0, before) && Enabled(Reached(s0, before), Forward(h, e))
    requires Runs(Step(Reached(s0, before), Forward(h, e)), between) && Forwarded(h) !in between
    requires Enabled(Reached(Step(Reached(s0, before), Forward(h, e)), between), Forwarded(h))
    requires key in Reached(s0, before).heap[Reached(s0, before).hs[h].phase.r].subscribers
    ensures WasOffered(between, h, key)
  {
    var s := Step(Reached(s0, before), Forward(h, e));
    StillToOffer(s, between, h, key);
  }

  // ----- who finds a session deserted -----

  /** At some step of the run, handler h looked at session r and found no publisher and no subscriber. */
  predicate SawEmpty(s: Relay, run: seq<Action>, h: nat, r: nat)
    requires Runs(s, run)
    decreases |run|
  {
    && run != []
    && (|| (run[0] == TestEmpty(h) && s.hs[h].phase.r == r && s.heap[r].publisher.None? && s.heap[r].subscribers == map[])
        || SawEmpty(Step(s, run[0]), run[1..], h, r))
  }

  /** The test is passed if and only if the session has neither. */
  lemma {:induction false} TestEmptyIff(s: Relay, h: nat)
    requires Enabled(s, TestEmpty(h))
    ensures var r := s.hs[h].phase.r;
      Step(s, TestEmpty(h)).hs[h].phase == Emptied(r) <==> s.heap[r].publisher.None? && s.heap[r].subscribers == map[]
  {
  }

  lemma {:induction false} FirstNotEmptied(s: Relay, a: Action, h: nat)
    requires Enabled(s, a) && a.First? && |s.hs| <= h < |Step(s, a).hs|
    ensures !Step(s, a).hs[h].phase.Emptied?
  {
  }

  lemma {:induction false} OwnStepNotEmptied(s: Relay, a: Action)
    requires Enabled(s, a) && (a.Greeted? || a.LookUp? || a.Forward? || a.Offer? || a.Forwarded? || a.HangUp? || a.SendUp?)
    ensures a.h < |Step(s, a).hs| && !Step(s, a).hs[a.h].phase.Emptied?
  {
  }

  lemma {:induction false} OtherStepNotEmptied(s: Relay, a: Action)
    requires Enabled(s, a) && (a.Register? || a.GreetOne? || a.RemoveOwn? || a.RemoveById?)
    ensures a.h < |Step(s, a).hs| && !Step(s, a).hs[a.h].phase.Emptied?
  {
  }

  lemma {:induction false} EmptiedStep(s: Relay, a: Action, h: nat, r: nat)
    requires Enabled(s, a) && h < |Step(s, a).hs| && Step(s, a).hs[h].phase == Emptied(r) && a != TestEmpty(h)
    ensures h < |s.hs| && s.hs[h].phase == Emptied(r)
  {
    SameHandlers(s, a);
    if h >= |s.hs| {
      FirstNotEmptied(s, a, h);
    } else if (a.Greeted? || a.LookUp? || a.Forward? || a.Offer? || a.Forwarded? || a.HangUp? || a.SendUp?) && a.h == h {
      OwnStepNotEmptied(s, a);
    } else if (a.Register? || a.GreetOne? || a.RemoveOwn? || a.RemoveById?) && a.h == h {
      OtherStepNotEmptied(s, a);
    } else {
      StaysPut(s, a, h);
    }
  }

  lemma {:induction false} EmptiedFrom(s: Relay, run: seq<Action>, h: nat, r: nat)
    requires Runs(s, run) && h < |Reached(s, run).hs| && Reached(s, run).hs[h].phase == Emptied(r)
    ensures (h < |s.hs| && s.hs[h].phase == Emptied(r)) || SawEmpty(s, run, h, r)
    decreases |run|
  {
    if run != [] {
      var a := run[0];
      EmptiedFrom(Step(s, a), run[1..], h, r);
      if !SawEmpty(Step(s, a), run[1..], h, r) {
        if a == TestEmpty(h) {
          TestEmptyIff(s, h);
        } else {
          EmptiedStep(s, a, h, r);
        }
      }
    }
  }

  /** Over every run: a subscriber's handler that is about to remove a session by its id has, at an earlier step, found the
      session it held without publisher and without subscribers. */
  lemma {:induction false} RemovesOnlyDeserted(s0: Relay, run: seq<Action>, h: nat)
    requires Initial(s0) && Runs(s0, run) && Enabled(Reached(s0, run), RemoveById(h)) && Reached(s0, run).hs[h].role.AsSubscriber?
    ensures SawEmpty(s0, run, h, Reached(s0, run).hs[h].phase.r)
  {
    InitialInv(s0);
    RunInv(s0, run);
    var s := Reached(s0, run);
    assert HandlerOk(s, s.hs[h]);
    EmptiedFrom(s0, run, h, s.hs[h].phase.r);
  }
}
