/**
 * The shared venue document the browser client keeps in memory: the map
 * background, the layout, the payment details, the admin PIN, the tents and
 * the reservations, plus any other top-level keys the shared copy carries.
 * Patches are partial documents; applying one is the client's local shallow
 * merge `{ ...s, ...patch }`.
 */
module Venue {
  import opened Wrappers
  import Json

  /** Tent state codes 'av' (available), 'pr' (pending), 'oc' (occupied), 'bl' (blocked). */
  datatype TentState = Av | Pr | Oc | Bl

  /** A tent on the map; `x` and `y` are relative to the map's box. */
  datatype Tent = Tent(id: int, x: real, y: real, state: TentState, price: real)

  /** A hold on a tent; times are milliseconds since the epoch. There is no status
      field: a reservation is live while it is in the sequence. */
  datatype Reservation = Reservation(id: string, tentId: int, createdAt: int, expiresAt: int)

  datatype Background = Background(publicPath: string)
  datatype Layout = Layout(count: int, edit: bool)
  datatype Payments = Payments(currency: string, usdToVES: real, whatsappNumber: string, countryCode: string)
  datatype Security = Security(adminPin: string)

  /** The six top-level keys the client gives a shape to. */
  const NamedKeys: set<string> := {"background", "layout", "payments", "security", "tents", "reservations"}

  /** The other top-level keys of a document (logs, `__touch`, ...), carried opaquely. */
  type Extras = m: map<string, Json.Value> | m.Keys !! NamedKeys witness map[]

  datatype Doc = Doc(
    background: Background,
    layout: Layout,
    payments: Payments,
    security: Security,
    tents: seq<Tent>,
    reservations: seq<Reservation>,
    extra: Extras)

  /** A partial document: the keys that are present replace the whole field. */
  datatype Patch = Patch(
    background: Option<Background>,
    layout: Option<Layout>,
    payments: Option<Payments>,
    security: Option<Security>,
    tents: Option<seq<Tent>>,
    reservations: Option<seq<Reservation>>,
    extra: Extras)

  const EmptyPatch := Patch(None, None, None, None, None, None, map[])

  /** The document a session starts from before anything is loaded. */
  const InitialData := Doc(
    Background("/Mapa.png"),
    Layout(20, false),
    Payments("USD", 0.0, "", "+58"),
    Security("1234"),
    [], [], map[])

  /** `{ ...s, ...patch }` on the client: present patch keys win, the others stay. */
  function ApplyPatch(d: Doc, p: Patch): (r: Doc)
    ensures r.background == p.background.GetOr(d.background)
    ensures r.layout == p.layout.GetOr(d.layout)
    ensures r.payments == p.payments.GetOr(d.payments)
    ensures r.security == p.security.GetOr(d.security)
    ensures r.tents == p.tents.GetOr(d.tents)
    ensures r.reservations == p.reservations.GetOr(d.reservations)
    ensures r.extra == Json.ShallowMerge(d.extra, p.extra)
  {
    Doc(
      p.background.GetOr(d.background),
      p.layout.GetOr(d.layout),
      p.payments.GetOr(d.payments),
      p.security.GetOr(d.security),
      p.tents.GetOr(d.tents),
      p.reservations.GetOr(d.reservations),
      d.extra + p.extra)
  }

  /** Applying the same patch twice is applying it once. */
  lemma ApplyPatchIdempotent(d: Doc, p: Patch)
    ensures ApplyPatch(ApplyPatch(d, p), p) == ApplyPatch(d, p)
  {
  }

  /** The minimal projection written to the local cache: the six named
      fields, and none of the other keys. */
  function CacheProjection(d: Doc): (p: Patch)
    ensures p.extra == map[]
    ensures ApplyPatch(InitialData, p) == d.(extra := map[])
  {
    Patch(Some(d.background), Some(d.layout), Some(d.payments), Some(d.security),
          Some(d.tents), Some(d.reservations), map[])
  }

  /** Spreading a cached projection over any document restores the six
      fields it was taken from and keeps the document's own other keys. */
  lemma RestoreProjection(d: Doc, e: Doc)
    ensures ApplyPatch(d, CacheProjection(e)) == e.(extra := d.extra)
  {
  }

  /** Ids are pairwise distinct. */
  predicate UniqueIds(tents: seq<Tent>) {
    forall i, j :: 0 <= i < j < |tents| ==> tents[i].id != tents[j].id
  }

  /** `i` is the first index holding a tent with that id. */
  predicate FirstWithId(tents: seq<Tent>, id: int, i: int) {
    0 <= i < |tents| && tents[i].id == id && forall j :: 0 <= j < i ==> tents[j].id != id
  }

  /** Finding a tent by id: the first tent with that id, if any. */
  function FindTent(tents: seq<Tent>, id: int): (r: Option<Tent>)
    ensures r.None? <==> forall i :: 0 <= i < |tents| ==> tents[i].id != id
    ensures r.Some? ==> r.value.id == id && (exists i :: FirstWithId(tents, id, i) && tents[i] == r.value)
    decreases |tents|
  {
    if tents == [] then None
    else if tents[0].id == id then Some(tents[0])
    else
      var r := FindTent(tents[1..], id);
      assert r.Some? ==> exists i :: FirstWithId(tents, id, i) && tents[i] == r.value by {
        if r.Some? {
          var i :| FirstWithId(tents[1..], id, i) && tents[1..][i] == r.value;
          assert FirstWithId(tents, id, i + 1) by {
            forall j | 0 <= j < i + 1 ensures tents[j].id != id {
              if j > 0 { assert tents[j] == tents[1..][j - 1]; }
            }
          }
        }
      }
      r
  }

  /** With distinct ids, the tent found is the one at the index of that id. */
  lemma FindTentUnique(tents: seq<Tent>, i: int)
    requires UniqueIds(tents) && 0 <= i < |tents|
    ensures FindTent(tents, tents[i].id) == Some(tents[i])
  {
  }

  /** The per-tent edits: each tent with the given id is rewritten, every
      other tent is kept, and the list keeps its order and length. */
  function MoveTent(tents: seq<Tent>, id: int, x: real, y: real): (r: seq<Tent>)
    ensures |r| == |tents|
    ensures forall i :: 0 <= i < |tents| ==>
      r[i] == if tents[i].id == id then tents[i].(x := x, y := y) else tents[i]
  {
    seq(|tents|, i requires 0 <= i < |tents| => if tents[i].id == id then tents[i].(x := x, y := y) else tents[i])
  }

  function SetTentState(tents: seq<Tent>, id: int, s: TentState): (r: seq<Tent>)
    ensures |r| == |tents|
    ensures forall i :: 0 <= i < |tents| ==>
      r[i] == if tents[i].id == id then tents[i].(state := s) else tents[i]
  {
    seq(|tents|, i requires 0 <= i < |tents| => if tents[i].id == id then tents[i].(state := s) else tents[i])
  }

  function SetTentPrice(tents: seq<Tent>, id: int, price: real): (r: seq<Tent>)
    ensures |r| == |tents|
    ensures forall i :: 0 <= i < |tents| ==>
      r[i] == if tents[i].id == id then tents[i].(price := price) else tents[i]
  {
    seq(|tents|, i requires 0 <= i < |tents| => if tents[i].id == id then tents[i].(price := price) else tents[i])
  }

  /** With distinct ids, each per-tent edit of the tent at index `i` changes
      that one tent, in that one field, and keeps the ids distinct. */
  lemma EditsTouchOneTent(tents: seq<Tent>, i: int, x: real, y: real, s: TentState, price: real)
    requires UniqueIds(tents) && 0 <= i < |tents|
    ensures var r := MoveTent(tents, tents[i].id, x, y);
      UniqueIds(r) && r[i] == tents[i].(x := x, y := y) && forall j :: 0 <= j < |r| && j != i ==> r[j] == tents[j]
    ensures var r := SetTentState(tents, tents[i].id, s);
      UniqueIds(r) && r[i] == tents[i].(state := s) && forall j :: 0 <= j < |r| && j != i ==> r[j] == tents[j]
    ensures var r := SetTentPrice(tents, tents[i].id, price);
      UniqueIds(r) && r[i] == tents[i].(price := price) && forall j :: 0 <= j < |r| && j != i ==> r[j] == tents[j]
  {
  }

  /** The fields of `payments` an edit may set; present fields win. */
  datatype PaymentsPatch = PaymentsPatch(
    currency: Option<string>,
    usdToVES: Option<real>,
    whatsappNumber: Option<string>,
    countryCode: Option<string>)

  /** `{ ...data.payments, ...patch }`: a local merge one level down, so that
      the shallow top-level merge does not lose the untouched fields. */
  function UpdatePayments(p: Payments, pp: PaymentsPatch): (r: Payments)
    ensures pp.currency.Some? ==> r.currency == pp.currency.value
    ensures pp.currency.None? ==> r.currency == p.currency
    ensures pp.usdToVES.Some? ==> r.usdToVES == pp.usdToVES.value
    ensures pp.usdToVES.None? ==> r.usdToVES == p.usdToVES
    ensures pp.whatsappNumber.Some? ==> r.whatsappNumber == pp.whatsappNumber.value
    ensures pp.whatsappNumber.None? ==> r.whatsappNumber == p.whatsappNumber
    ensures pp.countryCode.Some? ==> r.countryCode == pp.countryCode.value
    ensures pp.countryCode.None? ==> r.countryCode == p.countryCode
  {
    Payments(
      pp.currency.GetOr(p.currency),
      pp.usdToVES.GetOr(p.usdToVES),
      pp.whatsappNumber.GetOr(p.whatsappNumber),
      pp.countryCode.GetOr(p.countryCode))
  }
}
