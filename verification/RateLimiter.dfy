/** The relay's ban list (pkg/relay/ratelimit.go), against the history of each address. Times are in seconds, zero is Go's zero time. */
module RateLimiter {

  const MAX_FAILED_ATTEMPTS := 3
  const BAN_DURATION := 300

  // ----- histories -----

  datatype Event = Failure(at: int) | Reset

  /** The times of the failures since the last reset, oldest first. */
  function Streak(h: seq<Event>): (ts: seq<int>) {
    if h == [] then []
    else match h[|h| - 1]
      case Failure(t) => Streak(h[..|h| - 1]) + [t]
      case Reset => []
  }

  /** At least three failures since the last reset, the latest less than five minutes ago. */
  predicate BannedAt(h: seq<Event>, t: int) {
    var ts := Streak(h);
    |ts| >= MAX_FAILED_ATTEMPTS && t < ts[|ts| - 1] + BAN_DURATION
  }

  lemma {:induction false} StreakSnoc(h: seq<Event>, e: Event)
    ensures Streak(h + [e]) == if e.Failure? then Streak(h) + [e.at] else []
  {
    assert (h + [e])[..|h + [e]| - 1] == h;
  }

  function Failures(ts: seq<int>): (h: seq<Event>)
    ensures |h| == |ts|
  {
    seq(|ts|, i requires 0 <= i < |ts| => Failure(ts[i]))
  }

  lemma {:induction false} StreakIs(h: seq<Event>, ts: seq<int>)
    ensures Streak(h + [Reset] + Failures(ts)) == ts
  {
    if ts == [] {
      StreakSnoc(h, Reset);
      assert h + [Reset] + Failures(ts) == h + [Reset];
    } else {
      var front, t := ts[..|ts| - 1], ts[|ts| - 1];
      StreakIs(h, front);
      assert h + [Reset] + Failures(ts) == h + [Reset] + Failures(front) + [Failure(t)];
      StreakSnoc(h + [Reset] + Failures(front), Failure(t));
    }
  }

  /** Whatever came before a reset: after failures at these times an address is banned if and only if there are at least
      three of them and the last one is less than 300 seconds ago. */
  lemma {:induction false} BannedIff(h: seq<Event>, ts: seq<int>, now: int)
    ensures BannedAt(h + [Reset] + Failures(ts), now) <==> |ts| >= 3 && now < ts[|ts| - 1] + 300
  {
    StreakIs(h, ts);
  }

  /** Forgetting an address that is not banned now changes no answer from now on... */
  lemma {:induction false} ResetInvisible(h: seq<Event>, now: int, t: int)
    requires !BannedAt(h, now) && now <= t
    ensures BannedAt(h + [Reset], t) == BannedAt(h, t) == false
  {
    StreakSnoc(h, Reset);
  }

  /** ...until it fails again: with the old failures it is banned at once, after the reset it is not. */
  lemma {:induction false} ResetShowsAfterNextFailure(h: seq<Event>, now: int)
    requires |Streak(h)| >= MAX_FAILED_ATTEMPTS
    ensures BannedAt(h + [Failure(now)], now) && !BannedAt(h + [Reset] + [Failure(now)], now)
  {
    StreakSnoc(h, Failure(now));
    StreakSnoc(h, Reset);
    StreakSnoc(h + [Reset], Failure(now));
  }

  // ----- the object -----

  datatype Record = Record(attempts: nat, bannedUntil: int, lastActivity: int)

  /** What asking does to the records: activity is noted, and an expired ban is dropped. */
  function Asked(records: map<string, Record>, ip: string, now: int, enabled: bool): (r: map<string, Record>) {
    if !enabled || ip !in records then records
    else if now > records[ip].bannedUntil && records[ip].attempts >= MAX_FAILED_ATTEMPTS then records - {ip}
    else records[ip := records[ip].(lastActivity := now)]
  }

  predicate Stale(r: Record, maxAge: int, now: int) {
    now > r.bannedUntil && now - r.lastActivity > maxAge
  }

  class Limiter {
    const hostOf: string -> string   // net.SplitHostPort, or the address itself when it has no port
    var records: map<string, Record>
    var enabled: bool
    ghost var history: map<string, seq<Event>>

    ghost function HistoryOf(ip: string): seq<Event>
      reads this
    {
      if ip in history then history[ip] else []
    }

    /** A record is a summary of a non-empty streak. */
    ghost predicate RecordOk(ip: string)
      reads this
    {
      var ts := Streak(HistoryOf(ip));
      && (ip in records <==> ts != [])
      && (ip in records ==> records[ip].attempts == |ts|)
      && (ip in records ==> records[ip].bannedUntil == if |ts| >= MAX_FAILED_ATTEMPTS then ts[|ts| - 1] + BAN_DURATION else 0)
    }

    ghost predicate Valid()
      reads this
    {
      forall ip :: RecordOk(ip)
    }

    constructor (host: string -> string)
      ensures Valid() && enabled && hostOf == host && history == map[]
    {
      hostOf, records, enabled, history := host, map[], true, map[];
    }

    /** Forget one address. */
    method Forget(ip: string)
      requires Valid()
      modifies this`records, this`history
      ensures Valid() && history == old(history)[ip := old(HistoryOf(ip)) + [Reset]] && records == old(records) - {ip}
    {
      StreakSnoc(HistoryOf(ip), Reset);
      history := history[ip := HistoryOf(ip) + [Reset]];
      records := records - {ip};
      forall x
        ensures RecordOk(x)
      {
        assert old(RecordOk(x));
      }
    }

    /** The answer is exactly what the history says; asking may forget an expired ban, which no later answer shows. */
    method IsBanned(remoteAddr: string, now: int) returns (r: bool)
      requires Valid() && now > 0
      modifies this`records, this`history
      ensures Valid() && r == (enabled && BannedAt(old(HistoryOf(hostOf(remoteAddr))), now))
      ensures records == Asked(old(records), hostOf(remoteAddr), now, enabled)
      ensures forall x, t :: now <= t ==> BannedAt(HistoryOf(x), t) == old(BannedAt(HistoryOf(x), t))
    {
      if !enabled {
        return false;
      }
      var ip := hostOf(remoteAddr);
      assert RecordOk(ip);
      if ip !in records {
        return false;
      }
      var rec := records[ip].(lastActivity := now);
      records := records[ip := rec];
      assert Valid() by {
        forall x ensures RecordOk(x) {
          assert old(RecordOk(x));
        }
      }
      if now < rec.bannedUntil {
        return true;
      }
      if now > rec.bannedUntil && rec.attempts >= MAX_FAILED_ATTEMPTS {
        ghost var h := HistoryOf(ip);
        Forget(ip);
        forall t | now <= t ensures BannedAt(h + [Reset], t) == BannedAt(h, t) {
          ResetInvisible(h, now, t);
        }
      }
      r := false;
    }

    method RecordFailure(remoteAddr: string, now: int)
      requires Valid() && now > 0
      modifies this`records, this`history
      ensures Valid()
      ensures history == if enabled then old(history)[hostOf(remoteAddr) := old(HistoryOf(hostOf(remoteAddr))) + [Failure(now)]] else old(history)
      ensures !enabled ==> records == old(records)
      ensures enabled ==>
        var ip := hostOf(remoteAddr);
        ip in records && records[ip].lastActivity == now && records == old(records)[ip := records[ip]]
    {
      if !enabled {
        return;
      }
      var ip := hostOf(remoteAddr);
      assert RecordOk(ip);
      StreakSnoc(HistoryOf(ip), Failure(now));
      var rec := if ip in records then records[ip] else Record(0, 0, 0);
      rec := rec.(lastActivity := now, attempts := rec.attempts + 1);
      if rec.attempts >= MAX_FAILED_ATTEMPTS {
        rec := rec.(bannedUntil := now + BAN_DURATION);
      }
      records := records[ip := rec];
      history := history[ip := HistoryOf(ip) + [Failure(now)]];
      forall x
        ensures RecordOk(x)
      {
        assert old(RecordOk(x));
      }
    }

    method RecordSuccess(remoteAddr: string)
      requires Valid()
      modifies this`records, this`history
      ensures Valid() && history == old(history)[hostOf(remoteAddr) := old(HistoryOf(hostOf(remoteAddr))) + [Reset]]
    {
      Forget(hostOf(remoteAddr));
    }

    /** Stale records go; no present or later answer changes until another failure is recorded. */
    method CleanupStale(maxAge: int, now: int)
      requires Valid() && now > 0
      modifies this`records, this`history
      ensures Valid()
      ensures forall x, t :: now <= t ==> BannedAt(HistoryOf(x), t) == old(BannedAt(HistoryOf(x), t))
      ensures forall x :: x in records <==> x in old(records) && !Stale(old(records)[x], maxAge, now)
      ensures forall x :: x in records ==> records[x] == old(records)[x] && HistoryOf(x) == old(HistoryOf(x))
    {
      var todo := records.Keys;
      while todo != {}
        invariant Valid() && todo <= records.Keys
        invariant forall x, t :: now <= t ==> BannedAt(HistoryOf(x), t) == old(BannedAt(HistoryOf(x), t))
        invariant forall x :: x in records <==> x in old(records) && (x in todo || !Stale(old(records)[x], maxAge, now))
        invariant forall x :: x in records ==> records[x] == old(records)[x] && HistoryOf(x) == old(HistoryOf(x))
        decreases todo
      {
        var ip :| ip in todo;
        assert RecordOk(ip);
        if now > records[ip].bannedUntil && now - records[ip].lastActivity > maxAge {
          ghost var h := HistoryOf(ip);
          Forget(ip);
          forall t | now <= t ensures BannedAt(h + [Reset], t) == BannedAt(h, t) {
            ResetInvisible(h, now, t);
          }
        }
        todo := todo - {ip};
      }
    }
  }
}
