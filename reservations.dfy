/**
 * The reservation lifecycle on the client: holding an available tent for
 * fifteen minutes, and the sweep that drops expired holds and frees their
 * pending tents.
 */
module Reservations {
  import opened Wrappers
  import opened Venue
  import Decimal

  /** How long a hold lasts. */
  const HoldMinutes: int := 15

  /** `addMinutes` on millisecond timestamps: a minute is 60000 ms, so the
      result is later exactly for a positive number of minutes. */
  function AddMinutes(t: int, mins: int): (r: int)
    ensures r > t <==> mins > 0
    ensures r == t <==> mins == 0
  {
    t + mins * 60000
  }

  // ---------------------------------------------------------------- expiry

  /** The reservations the sweep keeps: those expiring strictly after `now`, in order. */
  function Alive(rs: seq<Reservation>, now: int): seq<Reservation>
    decreases |rs|
  {
    if rs == [] then []
    else
      var last := rs[|rs| - 1];
      Alive(rs[..|rs| - 1], now) + (if last.expiresAt > now then [last] else [])
  }

  /** The tent ids the sweep collects: those of all the other reservations, in order. */
  function ExpiredTentIds(rs: seq<Reservation>, now: int): seq<int>
    decreases |rs|
  {
    if rs == [] then []
    else
      var last := rs[|rs| - 1];
      ExpiredTentIds(rs[..|rs| - 1], now) + (if last.expiresAt > now then [] else [last.tentId])
  }

  /** The `filter` with a side list: one pass over the reservations that
      keeps the live ones and pushes the tent id of every other one. */
  method SweepReservations(rs: seq<Reservation>, now: int) returns (active: seq<Reservation>, changed: seq<int>)
    ensures active == Alive(rs, now)
    ensures changed == ExpiredTentIds(rs, now)
  {
    active, changed := [], [];
    var i := 0;
    while i < |rs|
      invariant 0 <= i <= |rs|
      invariant active == Alive(rs[..i], now)
      invariant changed == ExpiredTentIds(rs[..i], now)
    {
      assert rs[..i + 1][..i] == rs[..i];
      var r := rs[i];
      var alive := r.expiresAt > now;
      if !alive {
        changed := changed + [r.tentId];
      }
      if alive {
        active := active + [r];
      }
      i := i + 1;
    }
    assert rs[..|rs|] == rs;
  }

  /** A reservation is kept exactly when it expires after `now`. */
  lemma {:induction false} AliveExactly(rs: seq<Reservation>, now: int)
    ensures forall r :: r in Alive(rs, now) <==> r in rs && r.expiresAt > now
    decreases |rs|
  {
    if rs != [] {
      AliveExactly(rs[..|rs| - 1], now);
      assert rs == rs[..|rs| - 1] + [rs[|rs| - 1]];
    }
  }

  /** A tent id is collected exactly when some reservation for it has expired. */
  lemma {:induction false} ExpiredExactly(rs: seq<Reservation>, now: int)
    ensures forall id :: id in ExpiredTentIds(rs, now) <==>
      exists r :: r in rs && r.expiresAt <= now && r.tentId == id
    decreases |rs|
  {
    if rs != [] {
      ExpiredExactly(rs[..|rs| - 1], now);
      assert rs == rs[..|rs| - 1] + [rs[|rs| - 1]];
    }
  }

  /** The sweep keeps the original order: filtering a concatenation is
      concatenating the filtered parts. */
  lemma {:induction false} AliveAppend(a: seq<Reservation>, b: seq<Reservation>, now: int)
    ensures Alive(a + b, now) == Alive(a, now) + Alive(b, now)
    ensures ExpiredTentIds(a + b, now) == ExpiredTentIds(a, now) + ExpiredTentIds(b, now)
    decreases |b|
  {
    if b != [] {
      var b' := b[..|b| - 1];
      assert (a + b)[..|a + b| - 1] == a + b';
      AliveAppend(a, b', now);
    } else {
      assert a + b == a;
    }
  }

  /** Every reservation goes to exactly one side. */
  lemma {:induction false} SweepPartitions(rs: seq<Reservation>, now: int)
    ensures |Alive(rs, now)| + |ExpiredTentIds(rs, now)| == |rs|
    decreases |rs|
  {
    if rs != [] {
      SweepPartitions(rs[..|rs| - 1], now);
    }
  }

  /** Nothing is collected exactly when every reservation is kept. */
  lemma NothingExpired(rs: seq<Reservation>, now: int)
    ensures ExpiredTentIds(rs, now) == [] <==> Alive(rs, now) == rs
  {
    SweepPartitions(rs, now);
    AliveExactly(rs, now);
    ExpiredExactly(rs, now);
    if ExpiredTentIds(rs, now) == [] {
      AliveAllKept(rs, now);
    }
  }

  lemma {:induction false} AliveAllKept(rs: seq<Reservation>, now: int)
    requires ExpiredTentIds(rs, now) == []
    ensures Alive(rs, now) == rs
    decreases |rs|
  {
    if rs != [] {
      AliveAllKept(rs[..|rs| - 1], now);
      assert rs == rs[..|rs| - 1] + [rs[|rs| - 1]];
    }
  }

  /** Freeing after a sweep: a pending tent whose id was collected becomes
      available again; every tent keeps its place in the list. */
  function ReleaseTents(tents: seq<Tent>, changed: seq<int>): (r: seq<Tent>)
    ensures |r| == |tents|
  {
    seq(|tents|, i requires 0 <= i < |tents| =>
      if tents[i].id in changed && tents[i].state == Pr then tents[i].(state := Av) else tents[i])
  }

  /** Only pending tents named in `changed` become available; occupied and
      blocked tents, and every other tent, are left exactly as they were. */
  lemma ReleaseTentsEffect(tents: seq<Tent>, changed: seq<int>)
    ensures forall i :: 0 <= i < |tents| ==>
      (ReleaseTents(tents, changed)[i].state == Av <==>
        tents[i].state == Av || (tents[i].id in changed && tents[i].state == Pr))
    ensures forall i :: 0 <= i < |tents| && (tents[i].state != Pr || tents[i].id !in changed) ==>
      ReleaseTents(tents, changed)[i] == tents[i]
    ensures forall i :: 0 <= i < |tents| ==>
      ReleaseTents(tents, changed)[i] == tents[i].(state := ReleaseTents(tents, changed)[i].state)
  {
  }

  // ---------------------------------------------------------------- holding

  /** The hold `reservar` appends: id "<tent id>-<now>", for that tent,
      created now and lasting the fifteen-minute hold. */
  function NewReservation(t: Tent, now: int): (r: Reservation)
    ensures r.tentId == t.id && r.createdAt == now
    ensures r.expiresAt - r.createdAt == 900000
  {
    Reservation(Decimal.IntToString(t.id) + "-" + Decimal.IntToString(now), t.id, now, AddMinutes(now, HoldMinutes))
  }

  /** Holds made on non-negative tent ids at non-negative times have equal ids
      only when they are for the same tent at the same millisecond. */
  lemma NewReservationIdInjective(t1: Tent, now1: int, t2: Tent, now2: int)
    requires t1.id >= 0 && now1 >= 0 && t2.id >= 0 && now2 >= 0
    requires NewReservation(t1, now1).id == NewReservation(t2, now2).id
    ensures t1.id == t2.id && now1 == now2
  {
    Decimal.SplitAtDash(Decimal.IntToString(t1.id), Decimal.IntToString(now1),
                        Decimal.IntToString(t2.id), Decimal.IntToString(now2));
    Decimal.IntToStringInjective(t1.id, t2.id);
    Decimal.IntToStringInjective(now1, now2);
  }

  datatype ReserveOutcome =
    | NoSelection                 // the alert asking the user to select a tent
    | Unavailable                 // the alert saying the tent is not available
    | Held(tents: seq<Tent>, reservations: seq<Reservation>, selected: Tent)

  /** `reservar`: the patch it sends, or the rejection it shows. */
  function Reserve(tents: seq<Tent>, rs: seq<Reservation>, selected: Option<Tent>, now: int): (o: ReserveOutcome)
    ensures o.NoSelection? <==> selected.None?
    ensures o.Unavailable? <==> (selected.Some? &&
      (FindTent(tents, selected.value.id).None? || FindTent(tents, selected.value.id).value.state != Av))
  {
    if selected.None? then NoSelection
    else
      var found := FindTent(tents, selected.value.id);
      if found.None? || found.value.state != Av then Unavailable
      else
        var t := found.value;
        Held(SetTentState(tents, t.id, Pr), rs + [NewReservation(t, now)], t.(state := Pr))
  }

  /** A successful hold turns the selected tent, which was available, into a
      pending one and changes no other tent; it keeps every reservation and
      appends one for that tent, expiring fifteen minutes (900000 ms) later. */
  lemma ReserveEffect(tents: seq<Tent>, rs: seq<Reservation>, selected: Option<Tent>, now: int)
    requires UniqueIds(tents)
    requires Reserve(tents, rs, selected, now).Held?
    ensures var o := Reserve(tents, rs, selected, now);
      exists i :: 0 <= i < |tents| && tents[i].id == selected.value.id && tents[i].state == Av
        && o.tents[i] == tents[i].(state := Pr)
        && (forall j :: 0 <= j < |tents| && j != i ==> o.tents[j] == tents[j])
        && o.selected == o.tents[i]
    ensures var o := Reserve(tents, rs, selected, now);
      |o.tents| == |tents| && UniqueIds(o.tents)
      && |o.reservations| == |rs| + 1 && o.reservations[..|rs|] == rs
      && o.reservations[|rs|].tentId == selected.value.id
      && o.reservations[|rs|].createdAt == now
      && o.reservations[|rs|].expiresAt == now + 900000
  {
    var o := Reserve(tents, rs, selected, now);
    var t := FindTent(tents, selected.value.id).value;
    var i :| FirstWithId(tents, t.id, i) && tents[i] == t;
    assert o.reservations[..|rs|] == rs;
    EditsTouchOneTent(tents, i, 0.0, 0.0, Pr, 0.0);
  }

  /** A hold on a venue without reservations lapses fifteen minutes later:
      the sweep then drops it and frees exactly that tent, which gives back
      the tents as they were, so the same tent can be held again. */
  lemma HoldLapsesAndFrees(tents: seq<Tent>, selected: Option<Tent>, now: int, later: int)
    requires UniqueIds(tents)
    requires Reserve(tents, [], selected, now).Held?
    requires later >= now + 900000
    ensures var o := Reserve(tents, [], selected, now);
      Alive(o.reservations, later) == [] && ExpiredTentIds(o.reservations, later) == [selected.value.id]
      && ReleaseTents(o.tents, ExpiredTentIds(o.reservations, later)) == tents
      && Reserve(tents, [], selected, later).Held?
  {
    var t := FindTent(tents, selected.value.id).value;
    var i :| FirstWithId(tents, t.id, i) && tents[i] == t;
    var r := NewReservation(t, now);
    assert Alive([r], later) == [] && ExpiredTentIds([r], later) == [r.tentId] by {
      assert [r][..0] == [];
    }
    ReleaseUndoesHold(tents, i);
  }

  /** Freeing the one available tent a hold made pending restores the tents. */
  lemma ReleaseUndoesHold(tents: seq<Tent>, i: int)
    requires UniqueIds(tents) && 0 <= i < |tents| && tents[i].state == Av
    ensures ReleaseTents(SetTentState(tents, tents[i].id, Pr), [tents[i].id]) == tents
  {
    var back := ReleaseTents(SetTentState(tents, tents[i].id, Pr), [tents[i].id]);
    forall j | 0 <= j < |tents| ensures back[j] == tents[j] {
      if j != i {
        assert tents[j].id != tents[i].id;
      }
    }
  }

  // ---------------------------------------------------------------- at most one hold

  /** No two reservations reference the same tent, and no tent a
      reservation references is available. */
  ghost predicate Exclusive(tents: seq<Tent>, rs: seq<Reservation>) {
    DistinctTentIds(rs) &&
    (forall i, k :: 0 <= i < |rs| && 0 <= k < |tents| && tents[k].id == rs[i].tentId ==> tents[k].state != Av)
  }

  /** A hold keeps the reservations exclusive: the tent it takes was
      available, so nothing referenced it yet. */
  lemma ReservePreservesExclusive(tents: seq<Tent>, rs: seq<Reservation>, selected: Option<Tent>, now: int)
    requires Exclusive(tents, rs)
    requires Reserve(tents, rs, selected, now).Held?
    ensures var o := Reserve(tents, rs, selected, now); Exclusive(o.tents, o.reservations)
  {
    var o := Reserve(tents, rs, selected, now);
    var t := FindTent(tents, selected.value.id).value;
    var i0 :| FirstWithId(tents, t.id, i0) && tents[i0] == t;
    assert forall i :: 0 <= i < |rs| ==> rs[i].tentId != t.id;
    var rs' := o.reservations;
    assert forall i :: 0 <= i < |rs| ==> rs'[i] == rs[i];
  }

  /** The sweep keeps the reservations exclusive: a tent it frees had its only
      reservation expired, so no kept reservation references it. */
  lemma SweepPreservesExclusive(tents: seq<Tent>, rs: seq<Reservation>, now: int)
    requires Exclusive(tents, rs)
    ensures Exclusive(ReleaseTents(tents, ExpiredTentIds(rs, now)), Alive(rs, now))
  {
    var changed := ExpiredTentIds(rs, now);
    var kept := Alive(rs, now);
    var tents' := ReleaseTents(tents, changed);
    AliveDistinct(rs, now);
    AliveExactly(rs, now);
    ExpiredExactly(rs, now);
    forall i, k | 0 <= i < |kept| && 0 <= k < |tents'| && tents'[k].id == kept[i].tentId
      ensures tents'[k].state != Av
    {
      var r := kept[i];
      assert r in kept;
      var a :| 0 <= a < |rs| && rs[a] == r;
    }
  }

  /** Distinct tent ids stay distinct among the kept reservations. */
  lemma {:induction false} AliveDistinct(rs: seq<Reservation>, now: int)
    requires DistinctTentIds(rs)
    ensures DistinctTentIds(Alive(rs, now))
    decreases |rs|
  {
    if rs != [] {
      var init := rs[..|rs| - 1];
      var last := rs[|rs| - 1];
      var prev := Alive(init, now);
      AliveDistinct(init, now);
      AliveExactly(init, now);
      if last.expiresAt > now {
        forall i | 0 <= i < |prev| ensures prev[i].tentId != last.tentId {
          assert prev[i] in init;
          var m :| 0 <= m < |init| && init[m] == prev[i];
          assert rs[m] == init[m];
        }
      }
    }
  }

  predicate DistinctTentIds(rs: seq<Reservation>) {
    forall i, j :: 0 <= i < j < |rs| ==> rs[i].tentId != rs[j].tentId
  }

}
