/**
 * The browser session of the reservation app: the in-memory document, the
 * revision it last saw and the revision text used to bust caches, with the
 * transitions the app makes on them.
 *
 * Network answers are inputs, already decoded: the merged document the merge
 * endpoint returned (None when it returned nothing usable), the revision and
 * the document the store returned (None for null). Clock readings are inputs.
 */
module App {
  import opened Wrappers
  import opened Venue
  import opened MapGrid
  import opened Reservations
  import Decimal

  /** The layout count, falling back to 20 when it is 0 (falsy): whatever it
      gives is never 0. */
  function CountOr20(count: int): (n: int)
    ensures n != 0
    ensures count != 0 ==> n == count
    ensures count == 0 ==> n == 20
  {
    if count == 0 then 20 else count
  }

  /** What boot finds in local storage. */
  datatype CacheRead =
    | NoCache              // nothing saved
    | Unreadable           // reading or parsing threw; the handler swallows it
    | Cached(saved: Patch) // the parsed object, as a partial document

  /**
   * The boot seed rule. When a cache was read, its keys are spread over the
   * document and the tents are the cached ones if there are any, else the
   * document's, else a fresh grid sized from the document's own layout (not
   * the cached one). Without a cache, the document keeps its tents or gets a
   * fresh grid. An unreadable cache changes nothing.
   */
  function BootDoc(d: Doc, cache: CacheRead): (r: Doc)
    ensures cache.Unreadable? ==> r == d
    // apart from the tents, only the cached keys change
    ensures r.(tents := d.tents) == (if cache.Cached? then ApplyPatch(d, cache.saved).(tents := d.tents) else d)
    // whenever the cache was read, the venue has tents unless the count is negative
    ensures !cache.Unreadable? && CountOr20(d.layout.count) > 0 ==> |r.tents| > 0
  {
    GridShape(CountOr20(d.layout.count));
    match cache
    case Unreadable => d
    case NoCache =>
      d.(tents := if |d.tents| > 0 then d.tents else Grid(CountOr20(d.layout.count)))
    case Cached(p) =>
      var tents :=
        if p.tents.Some? && |p.tents.value| > 0 then p.tents.value
        else if |d.tents| > 0 then d.tents
        else Grid(CountOr20(d.layout.count));
      ApplyPatch(d, p).(tents := tents)
  }

  /** A session whose cache holds the projection of a document with tents
      resumes that document's six fields and keeps its own other keys. */
  lemma BootResumesCache(d: Doc, e: Doc)
    requires |e.tents| > 0
    ensures BootDoc(d, Cached(CacheProjection(e))) == e.(extra := d.extra)
  {
    RestoreProjection(d, e);
  }

  /** A first visit seeds the default 20-tent grid into the initial document;
      every field but the tents keeps its initial value. */
  lemma BootSeedsInitial()
    ensures BootDoc(InitialData, NoCache) == InitialData.(tents := Grid(20))
    ensures |BootDoc(InitialData, NoCache).tents| == 20
    ensures UniqueIds(BootDoc(InitialData, NoCache).tents)
  {
    GridShape(20);
    GridUniqueIds(20);
  }

  /** A cache without tents still yields a grid, sized from the in-memory
      layout count even when the cache carries another layout. */
  lemma BootCacheWithoutTents(d: Doc, p: Patch)
    requires |d.tents| == 0 && (p.tents.None? || p.tents == Some([]))
    ensures BootDoc(d, Cached(p)).tents == Grid(CountOr20(d.layout.count))
    ensures BootDoc(d, Cached(p)).layout == p.layout.GetOr(d.layout)
  {
  }

  /** Tents already present are never replaced by a seed. */
  lemma BootKeepsTents(d: Doc, cache: CacheRead)
    requires |d.tents| > 0
    requires cache.Cached? ==> cache.saved.tents.None? || cache.saved.tents == Some([])
    ensures BootDoc(d, cache).tents == d.tents
  {
  }

  /** Recreating the grid keeps the reservations but makes every tent
      available again, so a live hold no longer protects its tent: the
      invariant that held tents are unavailable breaks, and the same tent
      can be held a second time. */
  lemma RecreateBreaksExclusive(n: int, now: int, later: int)
    requires n >= 1
    ensures var g := Grid(n);
      var o := Reserve(g, [], Some(g[0]), now);
      && o.Held? && Exclusive(o.tents, o.reservations)
      && !Exclusive(g, o.reservations)
      && Reserve(g, o.reservations, Some(g[0]), later).Held?
      && var o2 := Reserve(g, o.reservations, Some(g[0]), later);
         |o2.reservations| == 2 && o2.reservations[0].tentId == o2.reservations[1].tentId
  {
    var g := Grid(n);
    GridShape(n);
    GridUniqueIds(n);
    FindTentUnique(g, 0);
    ReservePreservesExclusive(g, [], Some(g[0]), now);
    var o := Reserve(g, [], Some(g[0]), now);
    assert g[0].id == o.reservations[0].tentId && g[0].state == Av;
  }

  /** An admin state edit from pending back to available keeps the hold on
      that tent, so the same invariant breaks. */
  lemma StateEditBreaksExclusive(tents: seq<Tent>, selected: Option<Tent>, now: int)
    requires UniqueIds(tents)
    requires Reserve(tents, [], selected, now).Held?
    ensures var o := Reserve(tents, [], selected, now);
      Exclusive(o.tents, o.reservations) && !Exclusive(SetTentState(o.tents, selected.value.id, Av), o.reservations)
  {
    var o := Reserve(tents, [], selected, now);
    ReservePreservesExclusive(tents, [], selected, now);
    var t := FindTent(tents, selected.value.id).value;
    var i :| FirstWithId(tents, t.id, i) && tents[i] == t;
    var edited := SetTentState(o.tents, selected.value.id, Av);
    assert edited[i].id == o.reservations[0].tentId && edited[i].state == Av;
  }

  /** `r || 0` for a revision read from the store. */
  function RevOr0(r: Option<int>): int {
    if r.Some? then r.value else 0
  }

  /** The document after `mergeState(patch)`: the returned merged document, or
      the local shallow merge when the merge endpoint returned nothing. */
  function MergedData(d: Doc, patch: Patch, next: Option<Doc>): Doc {
    if next.Some? then next.value else ApplyPatch(d, patch)
  }

  /** The revision after `mergeState`: the one read after a successful merge
      (0 for null), or one more than before after a failed one. */
  function MergedRev(rev: int, next: Option<Doc>, fetchedRev: Option<int>): int {
    if next.Some? then RevOr0(fetchedRev) else rev + 1
  }

  function TentsPatch(tents: seq<Tent>): Patch {
    EmptyPatch.(tents := Some(tents))
  }

  /** The drag in progress (`dragInfo.current`): which tent, and the map's box. */
  datatype Drag = Drag(id: int, rect: Rect)

  class Session {
    var data: Doc
    var rev: int
    var sessionRevParam: string
    var selectedTent: Option<Tent>

    /** The revision text is always the text of the revision. */
    ghost predicate Valid()
      reads this
    {
      sessionRevParam == Decimal.IntToString(rev)
    }

    constructor ()
      ensures Valid()
      ensures data == InitialData && rev == 0 && sessionRevParam == "0" && selectedTent == None
    {
      data := InitialData;
      rev := 0;
      sessionRevParam := "0";
      selectedTent := None;
    }

    /** The mount effect: load the local cache and seed tents. */
    method Boot(cache: CacheRead)
      modifies this`data
      ensures data == BootDoc(old(data), cache)
    {
      match cache
      case Unreadable =>
      case NoCache =>
        if |data.tents| == 0 {
          var grid := MakeGrid(CountOr20(data.layout.count));
          data := data.(tents := grid);
        }
      case Cached(p) =>
        var tents;
        if p.tents.Some? && |p.tents.value| > 0 {
          tents := p.tents.value;
        } else if |data.tents| > 0 {
          tents := data.tents;
        } else {
          tents := MakeGrid(CountOr20(data.layout.count));
        }
        data := ApplyPatch(data, p).(tents := tents);
    }

    /**
     * `mergeState(patch)`. When the merge endpoint returned a document, adopt
     * it wholesale and take the revision read next (or 0). Otherwise the
     * patch's keys replace the data's locally and the revision goes up by one.
     * Either way the revision text follows the revision.
     */
    method MergeState(patch: Patch, next: Option<Doc>, fetchedRev: Option<int>)
      requires Valid()
      modifies this`data, this`rev, this`sessionRevParam
      ensures Valid()
      ensures next.Some? ==> data == next.value && rev == RevOr0(fetchedRev)
      ensures next.None? ==> data == ApplyPatch(old(data), patch) && rev == old(rev) + 1
      ensures data == MergedData(old(data), patch, next) && rev == MergedRev(old(rev), next, fetchedRev)
    {
      if next.Some? {
        data := next.value;
        rev := RevOr0(fetchedRev);
        sessionRevParam := Decimal.IntToString(RevOr0(fetchedRev));
        return;
      }
      data := ApplyPatch(data, patch);
      rev := rev + 1;
      Decimal.NumberOr0OfIntToString(rev - 1);
      sessionRevParam := Decimal.IntToString(Decimal.NumberOr0(sessionRevParam) + 1);
    }

    /**
     * One poll `tick` of the effect that is current for `rev`. Only a non-null
     * revision that differs from `rev` is adopted, together with its text and,
     * when the store returned one, the document; otherwise nothing changes.
     */
    method PollTick(on: bool, fetchedRev: Option<int>, fetchedState: Option<Doc>)
      requires Valid()
      modifies this`data, this`rev, this`sessionRevParam
      ensures Valid()
      ensures !(on && fetchedRev.Some? && fetchedRev.value != old(rev)) ==>
        data == old(data) && rev == old(rev) && sessionRevParam == old(sessionRevParam)
      ensures on && fetchedRev.Some? && fetchedRev.value != old(rev) ==>
        rev == fetchedRev.value && data == fetchedState.GetOr(old(data))
    {
      if !on {
        return;
      }
      if fetchedRev.Some? && fetchedRev.value != rev {
        rev := fetchedRev.value;
        sessionRevParam := Decimal.IntToString(fetchedRev.value);
        if fetchedState.Some? {
          data := fetchedState.value;
        }
      }
    }

    /** The expiry effect: drop expired holds and free their pending tents in
        one patch; when nothing expired no patch is sent and nothing changes. */
    method PurgeExpired(now: int, next: Option<Doc>, fetchedRev: Option<int>)
      requires Valid()
      modifies this`data, this`rev, this`sessionRevParam
      ensures Valid()
      ensures ExpiredTentIds(old(data).reservations, now) == [] ==>
        data == old(data) && rev == old(rev) && sessionRevParam == old(sessionRevParam)
      ensures ExpiredTentIds(old(data).reservations, now) != [] ==>
        var patch := EmptyPatch.(
          reservations := Some(Alive(old(data).reservations, now)),
          tents := Some(ReleaseTents(old(data).tents, ExpiredTentIds(old(data).reservations, now))));
        data == MergedData(old(data), patch, next) && rev == MergedRev(old(rev), next, fetchedRev)
    {
      var active, changed := SweepReservations(data.reservations, now);
      if |changed| > 0 {
        var tentsUpd := ReleaseTents(data.tents, changed);
        MergeState(EmptyPatch.(reservations := Some(active), tents := Some(tentsUpd)), next, fetchedRev);
      }
    }

    /** A pointer move during a drag: the dragged tent takes the pointer's
        position relative to the map, clamped into it; no network write. */
    method OnTentMove(drag: Option<Drag>, clientX: real, clientY: real)
      requires drag.Some? ==> drag.value.rect.width > 0.0 && drag.value.rect.height > 0.0
      modifies this`data
      ensures drag.None? ==> data == old(data)
      ensures drag.Some? ==>
        var p := DragPosition(drag.value.rect, clientX, clientY);
        data == old(data).(tents := MoveTent(old(data).tents, drag.value.id, p.0, p.1))
    {
      if drag.None? {
        return;
      }
      var p := DragPosition(drag.value.rect, clientX, clientY);
      data := data.(tents := MoveTent(data.tents, drag.value.id, p.0, p.1));
    }

    /** `reservar`: hold the selected tent when it is still available. */
    method Reservar(now: int, next: Option<Doc>, fetchedRev: Option<int>)
      requires Valid()
      modifies this`data, this`rev, this`sessionRevParam, this`selectedTent
      ensures Valid()
      ensures var o := Reserve(old(data).tents, old(data).reservations, old(selectedTent), now);
        !o.Held? ==> data == old(data) && rev == old(rev) && sessionRevParam == old(sessionRevParam)
                     && selectedTent == old(selectedTent)
      ensures var o := Reserve(old(data).tents, old(data).reservations, old(selectedTent), now);
        o.Held? ==>
          var patch := EmptyPatch.(tents := Some(o.tents), reservations := Some(o.reservations));
          data == MergedData(old(data), patch, next) && rev == MergedRev(old(rev), next, fetchedRev)
          && selectedTent == Some(o.selected)
    {
      var o := Reserve(data.tents, data.reservations, selectedTent, now);
      if !o.Held? {
        return;
      }
      MergeState(EmptyPatch.(tents := Some(o.tents), reservations := Some(o.reservations)), next, fetchedRev);
      selectedTent := Some(o.selected);
    }

    /** "Cambiar estado": the answer (None when cancelled or empty) replaces the
        selected tent's state, and the selection follows the edited tent. */
    method ChangeTentState(answer: Option<TentState>, next: Option<Doc>, fetchedRev: Option<int>)
      requires Valid() && selectedTent.Some?
      modifies this`data, this`rev, this`sessionRevParam, this`selectedTent
      ensures Valid()
      ensures var upd := SetTentState(old(data).tents, old(selectedTent).value.id, answer.GetOr(old(selectedTent).value.state));
        data == MergedData(old(data), TentsPatch(upd), next) && rev == MergedRev(old(rev), next, fetchedRev)
        && selectedTent == FindTent(upd, old(selectedTent).value.id)
    {
      var sel := selectedTent.value;
      var nextState := answer.GetOr(sel.state);
      var tentsUpd := SetTentState(data.tents, sel.id, nextState);
      MergeState(TentsPatch(tentsUpd), next, fetchedRev);
      selectedTent := FindTent(tentsUpd, sel.id);
    }

    /** A price edit: ignored without a selection; otherwise the price replaces
        the selected tent's, and the selection follows the edited tent. */
    method ChangeTentPrice(price: real, next: Option<Doc>, fetchedRev: Option<int>)
      requires Valid()
      modifies this`data, this`rev, this`sessionRevParam, this`selectedTent
      ensures Valid()
      ensures old(selectedTent).None? ==>
        data == old(data) && rev == old(rev) && sessionRevParam == old(sessionRevParam) && selectedTent == None
      ensures old(selectedTent).Some? ==>
        var upd := SetTentPrice(old(data).tents, old(selectedTent).value.id, price);
        data == MergedData(old(data), TentsPatch(upd), next) && rev == MergedRev(old(rev), next, fetchedRev)
        && selectedTent == FindTent(upd, old(selectedTent).value.id)
    {
      if selectedTent.None? {
        return;
      }
      var sel := selectedTent.value;
      var tentsUpd := SetTentPrice(data.tents, sel.id, price);
      MergeState(TentsPatch(tentsUpd), next, fetchedRev);
      selectedTent := FindTent(tentsUpd, sel.id);
    }

    /** `onChangePayments`: merge the edited fields into the current payments
        locally, then send the whole payments object as the patch. */
    method ChangePayments(edit: PaymentsPatch, next: Option<Doc>, fetchedRev: Option<int>)
      requires Valid()
      modifies this`data, this`rev, this`sessionRevParam
      ensures Valid()
      ensures var patch := EmptyPatch.(payments := Some(UpdatePayments(old(data).payments, edit)));
        data == MergedData(old(data), patch, next) && rev == MergedRev(old(rev), next, fetchedRev)
    {
      MergeState(EmptyPatch.(payments := Some(UpdatePayments(data.payments, edit))), next, fetchedRev);
    }

    /** `recreateGrid`: a fresh grid of the requested count, clamped into
        [1, 500] (20 for an unusable answer), and that count in the layout. */
    method RecreateGrid(answer: Option<string>, next: Option<Doc>, fetchedRev: Option<int>)
      requires Valid()
      modifies this`data, this`rev, this`sessionRevParam
      ensures Valid()
      ensures var count := RecreateCount(answer);
        var patch := EmptyPatch.(tents := Some(Grid(count)), layout := Some(old(data).layout.(count := count)));
        data == MergedData(old(data), patch, next) && rev == MergedRev(old(rev), next, fetchedRev)
    {
      var count := RecreateCount(answer);
      var tents := MakeGrid(count);
      MergeState(EmptyPatch.(tents := Some(tents), layout := Some(data.layout.(count := count))), next, fetchedRev);
    }
  }
}
