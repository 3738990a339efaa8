/**
 * JSON values as they travel between the browser, the serverless endpoints
 * and the hosted key-value store, and the shallow object spread
 * `{ ...a, ...b }` that every merge in the system is built from.
 *
 * Numbers are integers here: the values the model inspects (revision
 * counters) are integers, and documents are carried opaquely.
 */
module Json {
  import Decimal

  datatype Value =
    | Null
    | Bool(b: bool)
    | Num(n: int)
    | Str(s: string)
    | Arr(elems: seq<Value>)
    | Obj(fields: map<string, Value>)

  /** A top-level object document. */
  type Doc = map<string, Value>

  /** JavaScript truthiness (`if (v)`, `v || d`): exactly null, false, 0 and
      the empty string are falsy; every array and object is truthy. */
  predicate Truthy(v: Value): (b: bool)
    ensures !b <==> v == Null || v == Bool(false) || v == Num(0) || v == Str("")
  {
    match v
    case Null => false
    case Bool(b) => b
    case Num(n) => n != 0
    case Str(s) => s != ""
    case Arr(_) => true
    case Obj(_) => true
  }

  /** The entries `{ ...v }` contributes: an array or a string spreads its
      elements under the index keys "0", "1", …; other primitives spread nothing. */
  function IndexEntries(es: seq<Value>): (m: Doc)
    ensures |m.Keys| <= |es|
  {
    if es == [] then map[]
    else IndexEntries(es[..|es| - 1])[Decimal.NatToString(|es| - 1) := es[|es| - 1]]
  }

  /** What `{ ...v }` (equally `{ ...(v || {}) }`) spreads into a fresh object. */
  function Spread(v: Value): (m: Doc)
    ensures v.Obj? ==> m == v.fields
    ensures !Truthy(v) ==> m == map[]
    ensures (v.Bool? || v.Num?) ==> m == map[]
  {
    match v
    case Obj(fields) => fields
    case Arr(es) => IndexEntries(es)
    case Str(s) => IndexEntries(seq(|s|, i requires 0 <= i < |s| => Str([s[i]])))
    case _ => map[]
  }

  /** `{ ...cur, ...patch }`: every top-level key of the patch replaces the
      same key of the current document whole; the other keys are kept. */
  function ShallowMerge(cur: Doc, patch: Doc): (r: Doc)
    ensures r.Keys == cur.Keys + patch.Keys
    ensures forall k :: k in patch ==> r[k] == patch[k]
    ensures forall k :: k in cur && k !in patch ==> r[k] == cur[k]
  {
    cur + patch
  }

  /** `String(v)`: the text JavaScript makes of a value. Inside an array,
      null (and the undefined that JSON cannot carry) becomes empty text. */
  function JsString(v: Value): (s: string)
    ensures v.Num? ==> Decimal.NumberOr0(s) == v.n
    ensures v.Str? ==> s == v.s
    ensures s == "" ==> v == Str("") || v.Arr?
  {
    match v
    case Null => "null"
    case Bool(b) => if b then "true" else "false"
    case Num(n) =>
      Decimal.NumberOr0OfIntToString(n);
      Decimal.IntToString(n)
    case Str(s) => s
    case Arr(es) => JoinComma(seq(|es|, i requires 0 <= i < |es| => if es[i].Null? then "" else JsString(es[i])))
    case Obj(_) => "[object Object]"
  }

  function JoinComma(parts: seq<string>): string
    decreases |parts|
  {
    if |parts| == 0 then "" else if |parts| == 1 then parts[0] else parts[0] + "," + JoinComma(parts[1..])
  }

  /** `{ ...(cur || {}), ...(patch || {}) }` on arbitrary values: a null or
      absent side (or any other value that spreads nothing) acts as empty. */
  function SpreadMerge(cur: Value, patch: Value): (r: Doc)
    ensures r.Keys == Spread(cur).Keys + Spread(patch).Keys
    ensures forall k :: k in Spread(patch) ==> r[k] == Spread(patch)[k]
    ensures forall k :: k in Spread(cur) && k !in Spread(patch) ==> r[k] == Spread(cur)[k]
    ensures !Truthy(cur) ==> r == Spread(patch)
    ensures !Truthy(patch) ==> r == Spread(cur)
  {
    ShallowMerge(Spread(cur), Spread(patch))
  }

  /** Merging the same patch into the merged document changes nothing. */
  lemma SpreadMergeIdempotent(cur: Value, patch: Value)
    ensures SpreadMerge(Obj(SpreadMerge(cur, patch)), patch) == SpreadMerge(cur, patch)
  {
  }

  /** Patches spreading disjoint keys commute. */
  lemma SpreadMergeCommute(cur: Value, p1: Value, p2: Value)
    requires Spread(p1).Keys !! Spread(p2).Keys
    ensures SpreadMerge(Obj(SpreadMerge(cur, p1)), p2) == SpreadMerge(Obj(SpreadMerge(cur, p2)), p1)
  {
    MergeDisjointCommute(Spread(cur), Spread(p1), Spread(p2));
  }

  /** Merging the same patch a second time changes nothing. */
  lemma MergeIdempotent(cur: Doc, patch: Doc)
    ensures ShallowMerge(ShallowMerge(cur, patch), patch) == ShallowMerge(cur, patch)
  {
  }

  /** Patches that touch disjoint top-level keys commute. */
  lemma MergeDisjointCommute(cur: Doc, p1: Doc, p2: Doc)
    requires p1.Keys !! p2.Keys
    ensures ShallowMerge(ShallowMerge(cur, p1), p2) == ShallowMerge(ShallowMerge(cur, p2), p1)
  {
  }

  /** Patches that touch the same key: the later one wins on that key. */
  lemma MergeLaterWins(cur: Doc, p1: Doc, p2: Doc, k: string)
    requires k in p2
    ensures ShallowMerge(ShallowMerge(cur, p1), p2)[k] == p2[k]
  {
  }

  /** Applying patches one after another, in call order. */
  function MergeAll(cur: Doc, patches: seq<Doc>): Doc
    decreases |patches|
  {
    if patches == [] then cur
    else MergeAll(ShallowMerge(cur, patches[0]), patches[1..])
  }

  /** The later-wins union of a sequence of patches. */
  function Combined(patches: seq<Doc>): Doc
    decreases |patches|
  {
    if patches == [] then map[]
    else ShallowMerge(patches[0], Combined(patches[1..]))
  }

  /** Applying patches one at a time gives the same document as applying
      their later-wins union once: the cumulative shallow merge, in order. */
  lemma {:induction false} MergeAllIsCombined(cur: Doc, patches: seq<Doc>)
    ensures MergeAll(cur, patches) == ShallowMerge(cur, Combined(patches))
    decreases |patches|
  {
    if patches != [] {
      MergeAllIsCombined(ShallowMerge(cur, patches[0]), patches[1..]);
      assert ShallowMerge(ShallowMerge(cur, patches[0]), Combined(patches[1..]))
          == ShallowMerge(cur, ShallowMerge(patches[0], Combined(patches[1..])));
    }
  }
}
