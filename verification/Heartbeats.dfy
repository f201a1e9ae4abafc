/** Worker heartbeats in two stores: both must list a worker exactly while its last beat lives. */
module Heartbeats {
  import opened Types

  datatype Beat = Beat(stats: string, expires: Time)

  predicate Alive(b: Beat, now: Time) {
    b.expires > now
  }

  /** What the servers execute, in order. A cleanup pass over the Redis index takes two commands for
      each worker: it asks whether the worker's key is there and, if it was not, drops the name from
      the index later. The database removes old rows in one statement. */
  datatype Event =
    | Store(w: WorkerId, stats: string, at: Time, ttl: real)
    | Ask(pass: nat, w: WorkerId, at: Time)
    | Drop(pass: nat, at: Time)
    | Purge(staleSeconds: real, at: Time)

  /** The clock only advances, beats live for some time, and no purge reaches into the future. */
  ghost predicate Lawful(es: seq<Event>) {
    && (forall i, j :: 0 <= i < j < |es| ==> es[i].at <= es[j].at)
    && (forall i :: 0 <= i < |es| && es[i].Store? ==> es[i].ttl > 0.0)
    && (forall i :: 0 <= i < |es| && es[i].Purge? ==> es[i].staleSeconds >= 0.0)
  }

  function Clock(es: seq<Event>): Time {
    if es == [] then 0.0 else es[|es| - 1].at
  }

  /** The plain table: each worker's last beat. */
  function LastBeat(es: seq<Event>, w: WorkerId): Option<Beat> {
    if es == [] then None
    else
      var e := es[|es| - 1];
      if e.Store? && e.w == w then Some(Beat(e.stats, e.at + e.ttl)) else LastBeat(es[..|es| - 1], w)
  }

  predicate Living(es: seq<Event>, w: WorkerId, now: Time) {
    LastBeat(es, w).Some? && Alive(LastBeat(es, w).value, now)
  }

  /** A listing shows the living workers with what they last said. */
  ghost predicate Lists(listing: map<WorkerId, string>, es: seq<Event>, now: Time) {
    && (forall w :: w in listing <==> Living(es, w, now))
    && (forall w :: w in listing ==> listing[w] == LastBeat(es, w).value.stats)
  }

  // ---- Redis: a key that expires for each worker, and an index of names ----

  /** `doomed` holds, for each cleanup pass, the worker it found without a key and will drop. */
  datatype Redis = Redis(keys: map<WorkerId, Beat>, index: set<WorkerId>, doomed: map<nat, WorkerId>)

  predicate Exists(r: Redis, w: WorkerId, now: Time) {
    w in r.keys && Alive(r.keys[w], now)
  }

  function RedisStep(r: Redis, e: Event): Redis {
    match e
    case Store(w, stats, at, ttl) => r.(keys := r.keys[w := Beat(stats, at + ttl)], index := r.index + {w})
    case Ask(pass, w, at) => r.(doomed := if Exists(r, w, at) then r.doomed - {pass} else r.doomed[pass := w])
    case Drop(pass, _) =>
      if pass in r.doomed then r.(index := r.index - {r.doomed[pass]}, doomed := r.doomed - {pass}) else r
    case Purge(_, _) => r
  }

  function RunRedis(es: seq<Event>): Redis {
    if es == [] then Redis(map[], {}, map[]) else RedisStep(RunRedis(es[..|es| - 1]), es[|es| - 1])
  }

  function RedisListing(r: Redis, now: Time): map<WorkerId, string> {
    map w | w in r.index && Exists(r, w, now) :: r.keys[w].stats
  }

  // ---- The database: one row for each worker ----

  function SqlStep(rows: map<WorkerId, Beat>, e: Event): map<WorkerId, Beat> {
    match e
    case Store(w, stats, at, ttl) => rows[w := Beat(stats, at + ttl)]
    case Purge(staleSeconds, at) => map w | w in rows && rows[w].expires > at - staleSeconds :: rows[w]
    case _ => rows
  }

  function RunSql(es: seq<Event>): map<WorkerId, Beat> {
    if es == [] then map[] else SqlStep(RunSql(es[..|es| - 1]), es[|es| - 1])
  }

  function SqlListing(rows: map<WorkerId, Beat>, now: Time): map<WorkerId, string> {
    map w | w in rows && Alive(rows[w], now) :: rows[w].stats
  }

  // ---- Both against the table ----

  lemma {:induction false} RowsFollow(es: seq<Event>)
    requires Lawful(es)
    ensures forall w :: w in RunSql(es) ==> LastBeat(es, w) == Some(RunSql(es)[w])
    ensures forall w :: Living(es, w, Clock(es)) ==> w in RunSql(es)
  {
    if es != [] {
      RowsFollow(es[..|es| - 1]);
    }
  }

  /** The database lists exactly the living, whenever it purges. */
  lemma DatabaseListsTheLiving(es: seq<Event>, now: Time)
    requires Lawful(es) && now >= Clock(es)
    ensures Lists(SqlListing(RunSql(es), now), es, now)
  {
    RowsFollow(es);
  }

  /** A purge removes exactly the rows of workers whose last beat has been over for long enough. */
  lemma PurgedExactly(es: seq<Event>, purge: Event, w: WorkerId)
    requires Lawful(es) && purge.Purge? && w in RunSql(es)
    ensures LastBeat(es, w).Some?
    ensures w !in RunSql(es + [purge]) <==> LastBeat(es, w).value.expires + purge.staleSeconds <= purge.at
  {
    RowsFollow(es);
    assert (es + [purge])[..|es|] == es;
  }

  /** A beat lives for its time to live, and no longer, unless another one follows. */
  lemma {:induction false} LivesExactly(es: seq<Event>, beat: Event, more: seq<Event>, now: Time)
    requires beat.Store? && forall i :: 0 <= i < |more| ==> !Beats(more[i], beat.w)
    ensures Living(es + [beat] + more, beat.w, now) <==> now < beat.at + beat.ttl
  {
    LastStore(es + [beat], more, beat.w);
    assert (es + [beat])[..|es|] == es;
  }

  lemma {:induction false} KeysFollow(es: seq<Event>, w: WorkerId)
    ensures LastBeat(es, w) == if w in RunRedis(es).keys then Some(RunRedis(es).keys[w]) else None
  {
    if es != [] {
      KeysFollow(es[..|es| - 1], w);
    }
  }

  /** A name is dropped although its key is there. */
  predicate LateDrop(es: seq<Event>, i: nat) {
    && i < |es| && es[i].Drop?
    && (var r := RunRedis(es[..i]); es[i].pass in r.doomed && Exists(r, r.doomed[es[i].pass], es[i].at))
  }

  ghost predicate NeverLate(es: seq<Event>) {
    forall i :: 0 <= i < |es| ==> !LateDrop(es, i)
  }

  lemma PrefixLawful(es: seq<Event>, n: nat)
    requires n <= |es|
    ensures Lawful(es) ==> Lawful(es[..n])
    ensures NeverLate(es) ==> NeverLate(es[..n])
  {
    forall i | 0 <= i < n
      ensures LateDrop(es[..n], i) <==> LateDrop(es, i)
    {
      assert es[..n][..i] == es[..i];
    }
  }

  lemma {:induction false} LivingStayIndexed(es: seq<Event>)
    requires Lawful(es) && NeverLate(es)
    ensures forall w :: Living(es, w, Clock(es)) ==> w in RunRedis(es).index
  {
    if es != [] {
      var n := |es| - 1;
      PrefixLawful(es, n);
      LivingStayIndexed(es[..n]);
      assert !LateDrop(es, n);
      forall w | Living(es, w, Clock(es))
        ensures w in RunRedis(es).index
      {
        KeysFollow(es[..n], w);
      }
    }
  }

  lemma RedisListsTheLiving(es: seq<Event>, now: Time)
    requires Lawful(es) && NeverLate(es) && now >= Clock(es)
    ensures Lists(RedisListing(RunRedis(es), now), es, now)
  {
    LivingStayIndexed(es);
    forall w
      ensures w in RedisListing(RunRedis(es), now) <==> Living(es, w, now)
      ensures w in RedisListing(RunRedis(es), now) ==> RedisListing(RunRedis(es), now)[w] == LastBeat(es, w).value.stats
    {
      KeysFollow(es, w);
    }
  }

  /** get_active_workers reads the index first and the keys later, with other commands between. */
  function TornListing(index: set<WorkerId>, r: Redis, now: Time): map<WorkerId, string> {
    map w | w in index && Exists(r, w, now) :: r.keys[w].stats
  }

  lemma {:induction false} LastStore(es: seq<Event>, more: seq<Event>, w: WorkerId)
    requires forall i :: 0 <= i < |more| ==> !Beats(more[i], w)
    ensures LastBeat(es + more, w) == LastBeat(es, w)
  {
    if more == [] {
      assert es + more == es;
    } else {
      var front := more[..|more| - 1];
      LastStore(es, front, w);
      assert (es + more)[..|es + more| - 1] == es + front;
    }
  }

  /** Without late drops, what is listed is true, and a living worker is missing exactly if its name was
      not in the index yet when that was read; then it has sent a beat since, the first one or the
      first after having been gone. */
  lemma ListingInTwoSteps(es: seq<Event>, more: seq<Event>, now: Time)
    requires Lawful(es) && NeverRevived(es) && now >= Clock(es)
    ensures var listing := TornListing(RunRedis(es).index, RunRedis(es + more), now);
            && (forall w :: w in listing <==> Living(es + more, w, now) && w in RunRedis(es).index)
            && (forall w :: w in listing ==> listing[w] == LastBeat(es + more, w).value.stats)
            && (forall w :: Living(es + more, w, now) && w !in listing ==>
                  !Living(es, w, Clock(es)) && exists i :: 0 <= i < |more| && Beats(more[i], w))
  {
    NeverLateExactly(es);
    LivingStayIndexed(es);
    forall w
      ensures w in TornListing(RunRedis(es).index, RunRedis(es + more), now) <==>
                Living(es + more, w, now) && w in RunRedis(es).index
      ensures w in TornListing(RunRedis(es).index, RunRedis(es + more), now) ==>
                TornListing(RunRedis(es).index, RunRedis(es + more), now)[w] == LastBeat(es + more, w).value.stats
      ensures Living(es + more, w, now) && w !in RunRedis(es).index ==>
                !Living(es, w, Clock(es)) && exists i :: 0 <= i < |more| && Beats(more[i], w)
    {
      KeysFollow(es + more, w);
      if forall i :: 0 <= i < |more| ==> !Beats(more[i], w) {
        LastStore(es, more, w);
      }
    }
  }

  lemma LateDropShows(es: seq<Event>, i: nat)
    requires Lawful(es) && LateDrop(es, i)
    ensures Clock(es[..i + 1]) == es[i].at
    ensures RedisListing(RunRedis(es[..i + 1]), es[i].at) != SqlListing(RunSql(es[..i + 1]), es[i].at)
  {
    var before, upTo := es[..i], es[..i + 1];
    assert upTo[..i] == before;
    var w := RunRedis(before).doomed[es[i].pass];
    PrefixLawful(es, i + 1);
    KeysFollow(upTo, w);
    DatabaseListsTheLiving(upTo, es[i].at);
    assert w in SqlListing(RunSql(upTo), es[i].at);
    assert w !in RedisListing(RunRedis(upTo), es[i].at);
  }

  // ---- The same, told by the history alone ----

  predicate OfPass(e: Event, pass: nat) {
    (e.Ask? || e.Drop?) && e.pass == pass
  }

  predicate Beats(e: Event, w: WorkerId) {
    e.Store? && e.w == w
  }

  /** A pass asks at i and answers that question at j. */
  ghost predicate Asked(es: seq<Event>, i: nat, j: nat) {
    && i < j < |es| && es[i].Ask? && es[j].Drop? && es[j].pass == es[i].pass
    && forall k :: i < k < j ==> !OfPass(es[k], es[i].pass)
  }

  /** The worker has beaten between, and the last of these beats still lives at j. */
  ghost predicate BeatSince(es: seq<Event>, i: nat, j: nat, w: WorkerId) {
    i < j < |es| &&
    exists k :: i < k < j && Beats(es[k], w) && es[k].at + es[k].ttl > es[j].at
                && forall n :: k < n < j ==> !Beats(es[n], w)
  }

  /** The worker was gone when the pass asked and is back when it answers. */
  ghost predicate Revived(es: seq<Event>, i: nat, j: nat) {
    Asked(es, i, j) && !Living(es[..i], es[i].w, es[i].at) && BeatSince(es, i, j, es[i].w)
  }

  lemma {:induction false} PassRemembers(es: seq<Event>, i: nat, j: nat)
    requires i < j <= |es| && es[i].Ask? && forall k :: i < k < j ==> !OfPass(es[k], es[i].pass)
    ensures var r := RunRedis(es[..j]);
            && (es[i].pass in r.doomed <==> !Living(es[..i], es[i].w, es[i].at))
            && (es[i].pass in r.doomed ==> r.doomed[es[i].pass] == es[i].w)
  {
    assert es[..j][..j - 1] == es[..j - 1];
    if i < j - 1 {
      PassRemembers(es, i, j - 1);
      assert !OfPass(es[j - 1], es[i].pass);
    } else {
      KeysFollow(es[..i], es[i].w);
    }
  }

  lemma {:induction false} DoomedWasAsked(es: seq<Event>, j: nat, pass: nat) returns (i: nat)
    requires j <= |es| && pass in RunRedis(es[..j]).doomed
    ensures i < j && es[i].Ask? && es[i].pass == pass && forall k :: i < k < j ==> !OfPass(es[k], pass)
  {
    assert es[..j][..j - 1] == es[..j - 1];
    if es[j - 1].Ask? && es[j - 1].pass == pass {
      i := j - 1;
    } else {
      i := DoomedWasAsked(es, j - 1, pass);
    }
  }

  lemma {:induction false} LastBeatSince(es: seq<Event>, i: nat, j: nat, w: WorkerId)
    requires i < j <= |es| && !Beats(es[i], w)
    ensures || (LastBeat(es[..j], w) == LastBeat(es[..i], w) && forall n :: i < n < j ==> !Beats(es[n], w))
            || (exists k :: i < k < j && Beats(es[k], w)
                            && LastBeat(es[..j], w) == Some(Beat(es[k].stats, es[k].at + es[k].ttl))
                            && forall n :: k < n < j ==> !Beats(es[n], w))
  {
    assert es[..j][..j - 1] == es[..j - 1];
    if i < j - 1 && !Beats(es[j - 1], w) {
      LastBeatSince(es, i, j - 1, w);
    }
  }

  /** A pass drops a living worker if and only if the worker was gone when the pass asked, has sent a
      beat since, and its last beat still lives when the pass answers. */
  lemma LateDropExactly(es: seq<Event>, i: nat, j: nat)
    requires Lawful(es) && Asked(es, i, j)
    ensures LateDrop(es, j) <==> !Living(es[..i], es[i].w, es[i].at) && BeatSince(es, i, j, es[i].w)
  {
    var w := es[i].w;
    PassRemembers(es, i, j);
    KeysFollow(es[..j], w);
    LastBeatSince(es, i, j, w);
  }

  ghost predicate NeverRevived(es: seq<Event>) {
    forall i, j :: 0 <= i < j < |es| ==> !Revived(es, i, j)
  }

  lemma NeverLateExactly(es: seq<Event>)
    requires Lawful(es)
    ensures NeverLate(es) <==> NeverRevived(es)
  {
    forall i, j | 0 <= i < j < |es| && Revived(es, i, j)
      ensures LateDrop(es, j)
    {
      LateDropExactly(es, i, j);
    }
    forall j | 0 <= j < |es| && LateDrop(es, j)
      ensures exists i :: 0 <= i < j && Revived(es, i, j)
    {
      var i := DoomedWasAsked(es, j, es[j].pass);
      assert Asked(es, i, j);
      LateDropExactly(es, i, j);
      assert Revived(es, i, j);
    }
  }

  /** The two stores list the same workers after every prefix of a history and at all later times
      exactly when no worker comes back to life between a cleanup pass's question and its answer. */
  lemma StoresListAlikeExactly(es: seq<Event>)
    requires Lawful(es)
    ensures (forall n, now :: 0 <= n <= |es| && now >= Clock(es[..n]) ==>
               RedisListing(RunRedis(es[..n]), now) == SqlListing(RunSql(es[..n]), now)) <==> NeverRevived(es)
  {
    NeverLateExactly(es);
    if NeverLate(es) {
      forall n, now | 0 <= n <= |es| && now >= Clock(es[..n])
        ensures RedisListing(RunRedis(es[..n]), now) == SqlListing(RunSql(es[..n]), now)
      {
        PrefixLawful(es, n);
        RedisListsTheLiving(es[..n], now);
        DatabaseListsTheLiving(es[..n], now);
      }
    } else {
      var i :| 0 <= i < |es| && LateDrop(es, i);
      LateDropShows(es, i);
    }
  }

  // ---- The stores' own code ----

  class RedisHeartbeats {
    var keys: map<WorkerId, Beat>
    var index: set<WorkerId>

    ghost function Listing(now: Time): map<WorkerId, string>
      reads this
    {
      RedisListing(Contents(), now)
    }

    constructor ()
      ensures keys == map[] && index == {}
    {
      keys, index := map[], {};
    }

    method StoreHeartbeat(w: WorkerId, stats: string, at: Time, ttl: real)
      modifies this
      ensures Redis(keys, index, map[]) == RedisStep(old(Redis(keys, index, map[])), Store(w, stats, at, ttl))
    {
      keys := keys[w := Beat(stats, at + ttl)];
      index := index + {w};
    }

    ghost function Contents(): Redis
      reads this
    {
      Redis(keys, index, map[])
    }

    /** The index, and later the keys; `others` is what everybody else makes of both in between. */
    method GetActiveWorkers(now: Time, others: Redis -> Redis) returns (active: map<WorkerId, string>)
      modifies this
      ensures active == TornListing(old(index), others(old(Contents())), now)
      ensures keys == others(old(Contents())).keys && index == others(old(Contents())).index
    {
      var names := index;
      var found := others(Redis(keys, index, map[]));
      keys, index := found.keys, found.index;
      active := map[];
      var rest := names;
      while rest != {}
        invariant rest <= names && keys == found.keys && index == found.index
        invariant forall w :: w in active <==> w in names - rest && w in keys && Alive(keys[w], now)
        invariant forall w :: w in active ==> active[w] == keys[w].stats
        decreases rest
      {
        var w :| w in rest;
        rest := rest - {w};
        if w in keys && Alive(keys[w], now) {
          active := active[w := keys[w].stats];
        }
      }
    }

    /** A pass that nobody disturbs, asking about each worker at its own moment: it removes and counts
        exactly the workers without a key, and no later listing misses anybody. */
    method CleanupStaleClients(asked: WorkerId -> Time) returns (removed: nat)
      modifies this`index
      ensures index == set w | w in old(index) && w in keys && Alive(keys[w], asked(w))
      ensures removed == |old(index)| - |index|
      ensures forall now :: (forall w :: asked(w) <= now) ==> Listing(now) == old(Listing(now))
    {
      removed := 0;
      var rest := index;
      while rest != {}
        invariant rest <= index <= old(index)
        invariant forall w :: w in old(index) - rest ==> (w in index <==> w in keys && Alive(keys[w], asked(w)))
        invariant removed == |old(index)| - |index|
        decreases rest
      {
        var w :| w in rest;
        rest := rest - {w};
        if !(w in keys && Alive(keys[w], asked(w))) {
          index := index - {w};
          removed := removed + 1;
        }
      }
    }
  }

  class DatabaseHeartbeats {
    var rows: map<WorkerId, Beat>

    constructor ()
      ensures rows == map[]
    {
      rows := map[];
    }

    method StoreHeartbeat(w: WorkerId, stats: string, at: Time, ttl: real)
      modifies this
      ensures rows == SqlStep(old(rows), Store(w, stats, at, ttl))
    {
      rows := rows[w := Beat(stats, at + ttl)];
    }

    /** One statement: what has been expired for `staleSeconds` goes, and is counted. */
    method CleanupStaleClients(staleSeconds: real, at: Time) returns (removed: nat)
      modifies this
      ensures rows == SqlStep(old(rows), Purge(staleSeconds, at))
      ensures forall w :: w in rows <==> w in old(rows) && old(rows)[w].expires + staleSeconds > at
      ensures removed == |old(rows)| - |rows|
      ensures forall now :: staleSeconds >= 0.0 && now >= at ==> SqlListing(rows, now) == old(SqlListing(rows, now))
    {
      var cutoff := at - staleSeconds;
      var gone := set w | w in rows && rows[w].expires <= cutoff;
      assert gone <= rows.Keys && (rows - gone).Keys == rows.Keys - gone;
      rows, removed := rows - gone, |gone|;
      assert |rows| == |rows.Keys| && |old(rows)| == |old(rows).Keys|;
    }
  }
}
