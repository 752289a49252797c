/** The dynamically-typed values the matcher and the actions exchange, and
    the match records of parser.js. */
module Values {
  import opened Wrappers
  import opened Fragments

  /** A JavaScript value as it occurs in a parse: `null`, a matched substring,
      an array, a match record, a fragment built by an action, or a rule table
      built by the bootstrap actions. */
  datatype Value =
    | VNull
    | VText(text: string)
    | VList(items: seq<Value>)
    | VRecord(m: Match)
    | VFragment(f: Fragment)
    | VRules(rules: Rules)

  /** A match record `{ type, start, consumed, value, alternative?, times?, name? }`;
      an absent property is `None`. */
  datatype Match = Match(
    kind: Kind,
    start: nat,
    consumed: nat,
    value: Value,
    alternative: Option<nat>,
    times: Option<nat>,
    name: Option<string>)

  predicate IsLeafKind(k: Kind) {
    k == KString || k == KRe
  }

  predicate IsLookaheadKind(k: Kind) {
    k == KLookahead || k == KNegativeLookahead
  }

  /** `_post`: a STRING or RE match becomes its matched substring, a lookahead
      becomes `null`, and every other match stays the whole record. */
  function PostProcess(m: Match): Value {
    if IsLeafKind(m.kind) then m.value
    else if IsLookaheadKind(m.kind) then VNull
    else VRecord(m)
  }

  /** The input length a post-processed sub-value stands for. */
  function ConsumedOf(v: Value): nat {
    match v
    case VText(t) => |t|
    case VRecord(m) => m.consumed
    case _ => 0
  }

  function TotalConsumed(vs: seq<Value>): nat {
    if vs == [] then 0 else ConsumedOf(vs[0]) + TotalConsumed(vs[1..])
  }

  /** A match that is consistent with `input` at `pos`: it starts there, stays
      within the input, a leaf match carries exactly the substring it consumed,
      and a lookahead consumes nothing. */
  predicate Fits(input: string, m: Match, pos: nat) {
    && m.start == pos
    && pos + m.consumed <= |input|
    && (IsLeafKind(m.kind) ==> m.value == VText(input[pos..pos + m.consumed]))
    && (IsLookaheadKind(m.kind) ==> m.consumed == 0)
  }

  /** Post-processing keeps the consumed length and never leaves a leaf or
      lookahead record in a value list. */
  lemma PostProcessKeepsLength(input: string, m: Match, pos: nat)
    requires Fits(input, m, pos)
    ensures ConsumedOf(PostProcess(m)) == m.consumed
    ensures PostProcess(m).VRecord? ==> !IsLeafKind(PostProcess(m).m.kind) && !IsLookaheadKind(PostProcess(m).m.kind)
    ensures IsLookaheadKind(m.kind) <==> PostProcess(m) == VNull
  {
  }
}
