/** The part of JavaScript's `String.prototype.match` the engine relies on: an
    anchored pattern either matches a prefix of the remaining input or does not.
    Patterns of the form `^` class quantifier (a single character class under
    `*` or `+`, which covers every pattern of the bootstrap grammar) are
    interpreted here; any other pattern source goes to an engine supplied by
    the caller. */
module Regex {
  import opened Wrappers

  /** An abstract regular-expression engine: the length of the prefix of the
      second argument that the pattern source in the first argument matches. */
  type Engine = (string, string) -> Option<nat>

  /** The character classes written `\w`, `\d`, `\s`, `(\w|\d|_)` and `[^c]`. */
  datatype CharClass = Word | Digit | Space | WordDigitUnderscore | Except(c: char)

  /** A greedy run of one class: `*` when `atLeastOne` is false, `+` when true. */
  datatype Run = Run(cls: CharClass, atLeastOne: bool)

  predicate IsWordChar(ch: char) {
    ('a' <= ch <= 'z') || ('A' <= ch <= 'Z') || ('0' <= ch <= '9') || ch == '_'
  }

  /** JavaScript's `\s`: the white-space and line-terminator characters. */
  predicate IsSpace(ch: char) {
    ch == ' ' || ch == '\t' || ch == '\n' || ch == '\r' || ch == '\U{000B}' || ch == '\U{000C}'
    || ch == '\U{00A0}' || ch == '\U{1680}' || ('\U{2000}' <= ch <= '\U{200A}')
    || ch == '\U{2028}' || ch == '\U{2029}' || ch == '\U{202F}' || ch == '\U{205F}'
    || ch == '\U{3000}' || ch == '\U{FEFF}'
  }

  predicate InClass(cls: CharClass, ch: char) {
    match cls
    case Word => IsWordChar(ch)
    case Digit => '0' <= ch <= '9'
    case Space => IsSpace(ch)
    case WordDigitUnderscore => IsWordChar(ch) || ('0' <= ch <= '9') || ch == '_'
    case Except(c) => ch != c
  }

  /** The length of the longest prefix of `s` made of characters of `cls`. */
  function RunLength(cls: CharClass, s: string): (n: nat)
    ensures n <= |s|
    ensures forall k :: 0 <= k < n ==> InClass(cls, s[k])
    ensures n == |s| || !InClass(cls, s[n])
  {
    if s == [] || !InClass(cls, s[0]) then 0 else 1 + RunLength(cls, s[1..])
  }

  /** A greedy run fails only under `+` when not even one character is in the class. */
  function RunMatch(run: Run, s: string): (r: Option<nat>)
    ensures r.Some? ==> r.value <= |s|
    ensures r.Some? <==> !run.atLeastOne || (|s| > 0 && InClass(run.cls, s[0]))
    ensures r.Some? ==> forall k :: 0 <= k < r.value ==> InClass(run.cls, s[k])
    ensures r.Some? ==> r.value == |s| || !InClass(run.cls, s[r.value])
  {
    var n := RunLength(run.cls, s);
    if run.atLeastOne && n == 0 then None else Some(n)
  }

  /** The source text of a class inside a pattern. */
  function ClassSource(cls: CharClass): string {
    match cls
    case Word => "\\w"
    case Digit => "\\d"
    case Space => "\\s"
    case WordDigitUnderscore => "(\\w|\\d|_)"
    case Except(c) => "[^" + [c] + "]"
  }

  /** `[^c]` is only read back as written when `c` is neither an escape nor `]`. */
  predicate Writable(cls: CharClass) {
    cls.Except? ==> cls.c != '\\' && cls.c != ']'
  }

  function ParseClass(body: string): Option<CharClass> {
    if body == "\\w" then Some(Word)
    else if body == "\\d" then Some(Digit)
    else if body == "\\s" then Some(Space)
    else if body == "(\\w|\\d|_)" then Some(WordDigitUnderscore)
    else if |body| == 4 && body[0] == '[' && body[1] == '^' && body[3] == ']'
            && body[2] != '\\' && body[2] != ']' then Some(Except(body[2]))
    else None
  }

  /** The anchored source text `^` class quantifier of a run. */
  function RunSource(run: Run): string {
    "^" + ClassSource(run.cls) + (if run.atLeastOne then "+" else "*")
  }

  /** Recognises the sources of the form `^` class quantifier. */
  function ParseRun(source: string): Option<Run> {
    if |source| >= 3 && source[0] == '^' && source[|source| - 1] in {'*', '+'} then
      match ParseClass(source[1..|source| - 1])
      case Some(cls) => Some(Run(cls, source[|source| - 1] == '+'))
      case None => None
    else None
  }

  /** Reading a run's source text back gives the same run. */
  lemma ParseRunSource(run: Run)
    requires Writable(run.cls)
    ensures ParseRun(RunSource(run)) == Some(run)
  {
    var s := RunSource(run);
    var body := ClassSource(run.cls);
    assert s[1..|s| - 1] == body;
    match run.cls
    case Except(c) =>
      assert body[0] == '[' && body[1] == '^' && body[2] == c && body[3] == ']';
    case _ =>
  }

  /** `string.match(source)` reduced to the matched prefix length: class runs
      are interpreted; any other source is asked of `engine`, and an answer
      longer than the remaining input is read as no match. */
  function PrefixMatch(engine: Engine, source: string, s: string): (r: Option<nat>)
    ensures r.Some? ==> r.value <= |s|
  {
    match ParseRun(source)
    case Some(run) => RunMatch(run, s)
    case None =>
      var answer := engine(source, s);
      if answer.Some? && answer.value <= |s| then answer else None
  }
}
