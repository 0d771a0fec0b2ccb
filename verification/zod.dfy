/**
 * The fragment of zod's parsing semantics the application's schemas use.
 * A schema parses an untyped input value into a normalised record or
 * reports the list of issues it found. Issues are collected, not cut short:
 * every field of an object is parsed, every check of a number or string is
 * evaluated, and only a wrong type stops the checks of that one field.
 */
module Zod {
  import opened Wrappers
  import opened JsText

  /** An untyped JavaScript input value. Numbers are finite. */
  datatype Value =
    | Undefined
    | Null
    | Bool(b: bool)
    | Num(n: real)
    | Str(s: string)
    | Arr(items: seq<Value>)
    | Obj(fields: map<string, Value>)

  /** Property read on an object: a missing key reads as `undefined`. */
  function Get(v: Value, key: string): Value
    requires v.Obj?
  {
    if key in v.fields then v.fields[key] else Undefined
  }

  /** One step of the path from the parsed root to the offending value. */
  datatype PathSeg = Key(name: string) | Index(i: nat)

  /**
   * The issue codes the schemas can raise. `NotInteger` is what zod reports
   * as an invalid type with "integer" expected.
   */
  datatype IssueCode = InvalidType | TooSmall | TooBig | NotInteger | InvalidEnumValue | InvalidEmail

  /** An issue; `message` is the schema's custom message, None for zod's own wording. */
  datatype Issue = Issue(path: seq<PathSeg>, code: IssueCode, message: Option<string>)

  /** The outcome of parsing: the normalised output, or the issues found. */
  type Parsed<T> = Result<T, seq<Issue>>

  /** The issues of an outcome; none for a success. */
  function IssuesOf<T>(p: Parsed<T>): seq<Issue> {
    if p.Failure? then p.error else []
  }

  /** A failure that reports at least one issue. */
  predicate Reported<T>(p: Parsed<T>) {
    p.Failure? ==> |p.error| > 0
  }

  /** All issues concern values at or below `path`. */
  predicate AllUnder(issues: seq<Issue>, path: seq<PathSeg>) {
    forall i :: 0 <= i < |issues| ==> path <= issues[i].path
  }

  /** The output of an optional and nullable field. */
  datatype Field<T> = Omitted | NullValue | Given(value: T)

  // ---------------------------------------------------------------------
  // Field constraints, stated directly on input values
  // ---------------------------------------------------------------------

  /** `undefined` or `null`. */
  predicate Nullish(x: Value) {
    x.Undefined? || x.Null?
  }

  /** A string whose trimmed length lies in `lo..hi`. */
  predicate TrimmedIn(x: Value, lo: nat, hi: nat) {
    x.Str? && lo <= JsLength(Trim(x.s)) <= hi
  }

  /** A string of at least one code unit, untrimmed. */
  predicate NonEmptyText(x: Value) {
    x.Str? && JsLength(x.s) >= 1
  }

  /** A string of whitespace only. */
  predicate Blank(x: Value) {
    x.Str? && AllWhitespace(x.s)
  }

  /** A whole number in `lo..hi`. */
  predicate IntegerIn(x: Value, lo: int, hi: int) {
    x.Num? && IsInteger(x.n) && lo as real <= x.n <= hi as real
  }

  // ---------------------------------------------------------------------
  // Strings
  // ---------------------------------------------------------------------

  /** `.min(min, tooShort)` and, when `max` is given, `.max(max, tooLong)`, on `length`. */
  datatype Bounds = Bounds(min: nat, max: Option<nat>, tooShort: Option<string>, tooLong: Option<string>)

  predicate WithinBounds(s: string, b: Bounds) {
    b.min <= JsLength(s) && (b.max.None? || JsLength(s) <= b.max.value)
  }

  /** The issues of the length checks, the minimum's before the maximum's. */
  function LengthIssues(s: string, path: seq<PathSeg>, b: Bounds): (r: seq<Issue>)
    ensures r == [] <==> WithinBounds(s, b)
    ensures AllUnder(r, path)
  {
    (if JsLength(s) < b.min then [Issue(path, TooSmall, b.tooShort)] else [])
    + (if b.max.Some? && JsLength(s) > b.max.value then [Issue(path, TooBig, b.tooLong)] else [])
  }

  /**
   * `z.string().transform(sanitizeString).pipe(z.string().min(..).max(..))`:
   * the input must be a string; it is trimmed, and the trimmed text is what
   * the length checks see and what the field outputs.
   */
  function TrimmedText(v: Value, path: seq<PathSeg>, b: Bounds): (r: Parsed<string>)
    ensures r.Success? <==> v.Str? && WithinBounds(Trim(v.s), b)
    ensures r.Success? ==> r.value == Trim(v.s) && IsTrimmed(r.value)
    ensures Reported(r) && AllUnder(IssuesOf(r), path)
  {
    match v
    case Str(s) =>
      var t := Trim(s);
      var issues := LengthIssues(t, path, b);
      if issues == [] then Success(t) else Failure(issues)
    case _ => Failure([Issue(path, InvalidType, None)])
  }

  /** `z.string()` with optional length checks and no trimming. */
  function PlainText(v: Value, path: seq<PathSeg>, b: Bounds): (r: Parsed<string>)
    ensures r.Success? <==> v.Str? && WithinBounds(v.s, b)
    ensures r.Success? ==> r.value == v.s
    ensures Reported(r) && AllUnder(IssuesOf(r), path)
  {
    match v
    case Str(s) =>
      var issues := LengthIssues(s, path, b);
      if issues == [] then Success(s) else Failure(issues)
    case _ => Failure([Issue(path, InvalidType, None)])
  }

  /** A blank required string is reported as too short, with the field's message. */
  lemma BlankTextTooShort(v: Value, path: seq<PathSeg>, b: Bounds)
    requires Blank(v) && b.min >= 1
    ensures TrimmedText(v, path, b).Failure?
    ensures Issue(path, TooSmall, b.tooShort) in TrimmedText(v, path, b).error
  {
    TrimOfBlank(v.s);
  }

  /** Text that is already trimmed and within bounds parses to itself. */
  lemma TrimmedTextOfTrimmed(x: string, path: seq<PathSeg>, b: Bounds)
    requires IsTrimmed(x) && WithinBounds(x, b)
    ensures TrimmedText(Str(x), path, b) == Success(x)
  {
    TrimOfTrimmed(x);
  }

  /** Parsing the output of a trimmed text field again gives the same outcome. */
  lemma TrimmedTextStable(x: Value, path: seq<PathSeg>, b: Bounds)
    requires TrimmedText(x, path, b).Success?
    ensures TrimmedText(Str(TrimmedText(x, path, b).value), path, b) == TrimmedText(x, path, b)
  {
    TrimIdempotent(x.s);
  }

  /** The same for an optional nullable trimmed text field. */
  lemma NullableTrimmedStable(x: Value, path: seq<PathSeg>, b: Bounds)
    requires OptionalNullable(x, TrimmedText(x, path, b)).Success?
    ensures var y := FieldValue(OptionalNullable(x, TrimmedText(x, path, b)).value, StrValue);
            OptionalNullable(y, TrimmedText(y, path, b)) == OptionalNullable(x, TrimmedText(x, path, b))
  {
    if x.Str? {
      TrimmedTextStable(x, path, b);
    }
  }

  // ---------------------------------------------------------------------
  // Numbers
  // ---------------------------------------------------------------------

  /** The number checks in use: `.int()`, `.positive(msg)`, `.min(0)`, `.max(bound, msg)`. */
  datatype NumberCheck =
    | Integer
    | Positive(message: Option<string>)
    | NonNegative
    | AtMost(bound: real, message: Option<string>)

  /** `Number.isInteger` on a finite number. */
  predicate IsInteger(x: real) {
    x.Floor as real == x
  }

  predicate Passes(x: real, c: NumberCheck) {
    match c
    case Integer => IsInteger(x)
    case Positive(_) => x > 0.0
    case NonNegative => x >= 0.0
    case AtMost(bound, _) => x <= bound
  }

  /** `x` passes every check of the list. */
  predicate AllPass(x: real, checks: seq<NumberCheck>) {
    forall i :: 0 <= i < |checks| ==> Passes(x, checks[i])
  }

  /** `.positive().max(hi)`. */
  lemma PositiveAtMost(x: real, m1: Option<string>, hi: real, m2: Option<string>)
    ensures AllPass(x, [Positive(m1), AtMost(hi, m2)]) <==> 0.0 < x <= hi
  {
    var cs := [Positive(m1), AtMost(hi, m2)];
    if 0.0 < x <= hi {
      forall i | 0 <= i < |cs| ensures Passes(x, cs[i]) {
      }
    }
    if AllPass(x, cs) {
      assert Passes(x, cs[0]) && Passes(x, cs[1]);
    }
  }

  /** `.int().positive().max(hi)`: a whole number in `1..hi`. */
  lemma IntegerPositiveAtMost(x: real, hi: int)
    ensures AllPass(x, [Integer, Positive(None), AtMost(hi as real, None)]) <==> IntegerIn(Num(x), 1, hi)
  {
    var cs := [Integer, Positive(None), AtMost(hi as real, None)];
    if IntegerIn(Num(x), 1, hi) {
      forall i | 0 <= i < |cs| ensures Passes(x, cs[i]) {
      }
    }
    if AllPass(x, cs) {
      assert Passes(x, cs[0]) && Passes(x, cs[1]) && Passes(x, cs[2]);
    }
  }

  /** `.int().min(0)`: a whole number, zero or more. */
  lemma IntegerNonNegative(x: real)
    ensures AllPass(x, [Integer, NonNegative]) <==> IsInteger(x) && x >= 0.0
  {
    var cs := [Integer, NonNegative];
    if IsInteger(x) && x >= 0.0 {
      forall i | 0 <= i < |cs| ensures Passes(x, cs[i]) {
      }
    }
    if AllPass(x, cs) {
      assert Passes(x, cs[0]) && Passes(x, cs[1]);
    }
  }

  /** The issue a failed check raises. */
  function CheckIssue(path: seq<PathSeg>, c: NumberCheck): Issue {
    match c
    case Integer => Issue(path, NotInteger, None)
    case Positive(m) => Issue(path, TooSmall, m)
    case NonNegative => Issue(path, TooSmall, None)
    case AtMost(_, m) => Issue(path, TooBig, m)
  }

  /** The issues of the checks `x` fails, in the order the checks are declared. */
  function NumberIssues(x: real, checks: seq<NumberCheck>, path: seq<PathSeg>): (r: seq<Issue>)
    ensures r == [] <==> AllPass(x, checks)
    ensures AllUnder(r, path)
  {
    if checks == [] then []
    else
      var rest := NumberIssues(x, checks[1..], path);
      assert forall i :: 1 <= i < |checks| ==> checks[i] == checks[1..][i - 1];
      (if Passes(x, checks[0]) then [] else [CheckIssue(path, checks[0])]) + rest
  }

  /** Every check `x` fails contributes its issue. */
  lemma {:induction false} FailedCheckReported(x: real, checks: seq<NumberCheck>, path: seq<PathSeg>, i: nat)
    requires i < |checks| && !Passes(x, checks[i])
    ensures CheckIssue(path, checks[i]) in NumberIssues(x, checks, path)
  {
    if i > 0 {
      FailedCheckReported(x, checks[1..], path, i - 1);
    }
  }

  /** `z.number()` followed by `checks`. */
  function Number(v: Value, path: seq<PathSeg>, checks: seq<NumberCheck>): (r: Parsed<real>)
    ensures r.Success? <==> v.Num? && AllPass(v.n, checks)
    ensures r.Success? ==> r.value == v.n
    ensures Reported(r) && AllUnder(IssuesOf(r), path)
  {
    match v
    case Num(x) =>
      var issues := NumberIssues(x, checks, path);
      if issues == [] then Success(x) else Failure(issues)
    case _ => Failure([Issue(path, InvalidType, None)])
  }

  // ---------------------------------------------------------------------
  // Enums and modifiers
  // ---------------------------------------------------------------------

  /** `z.enum([...])`: a string naming one of the members, decoded by `decode`. */
  function Enum<T>(v: Value, path: seq<PathSeg>, decode: string -> Option<T>): (r: Parsed<T>)
    ensures r.Success? <==> v.Str? && decode(v.s).Some?
    ensures r.Success? ==> Some(r.value) == decode(v.s)
    ensures Reported(r) && AllUnder(IssuesOf(r), path)
  {
    match v
    case Str(s) =>
      (match decode(s)
       case Some(x) => Success(x)
       case None => Failure([Issue(path, InvalidEnumValue, None)]))
    case _ => Failure([Issue(path, InvalidType, None)])
  }

  /** The name of a member parses to that member. */
  lemma EnumOfName<T>(s: string, path: seq<PathSeg>, decode: string -> Option<T>, x: T)
    requires decode(s) == Some(x)
    ensures Enum(Str(s), path, decode) == Success(x)
  {
  }

  /** `.optional()`: `undefined` is accepted as absent; anything else goes to the inner schema. */
  function Optional<T>(v: Value, inner: Parsed<T>): (r: Parsed<Option<T>>)
    ensures v.Undefined? ==> r == Success(None)
    ensures !v.Undefined? ==> (r.Success? <==> inner.Success?)
    ensures !v.Undefined? && r.Success? ==> r.value == Some(inner.value)
    ensures IssuesOf(r) == if v.Undefined? then [] else IssuesOf(inner)
  {
    if v.Undefined? then Success(None)
    else
      match inner
      case Success(x) => Success(Some(x))
      case Failure(e) => Failure(e)
  }

  /** `.nullable().optional()`: `undefined` is omitted, `null` is kept as null. */
  function OptionalNullable<T>(v: Value, inner: Parsed<T>): (r: Parsed<Field<T>>)
    ensures v.Undefined? ==> r == Success(Omitted)
    ensures v.Null? ==> r == Success(NullValue)
    ensures !v.Undefined? && !v.Null? ==> (r.Success? <==> inner.Success?)
    ensures !v.Undefined? && !v.Null? && r.Success? ==> r.value == Given(inner.value)
    ensures IssuesOf(r) == if v.Undefined? || v.Null? then [] else IssuesOf(inner)
  {
    if v.Undefined? then Success(Omitted)
    else if v.Null? then Success(NullValue)
    else
      match inner
      case Success(x) => Success(Given(x))
      case Failure(e) => Failure(e)
  }

  /** `.default(d)`: `undefined` becomes `d`; anything else goes to the inner schema. */
  function WithDefault<T>(v: Value, d: T, inner: Parsed<T>): (r: Parsed<T>)
    ensures v.Undefined? ==> r == Success(d)
    ensures !v.Undefined? ==> r == inner
  {
    if v.Undefined? then Success(d) else inner
  }

  function StrValue(s: string): Value {
    Str(s)
  }

  function NumValue(x: real): Value {
    Num(x)
  }

  // ---------------------------------------------------------------------
  // Arrays
  // ---------------------------------------------------------------------

  /**
   * `z.array(element)` over `items`, the first of which sits at index
   * `start` of the array found at `path`: every item is parsed, and the
   * array is accepted when all of them are.
   */
  function ArrayItems<T>(items: seq<Value>, path: seq<PathSeg>, start: nat,
                         element: (Value, seq<PathSeg>) -> Parsed<T>): (r: Parsed<seq<T>>)
    requires forall x, p :: Reported(element(x, p))
    ensures r.Success? <==> forall i :: 0 <= i < |items| ==> element(items[i], path + [Index(start + i)]).Success?
    ensures r.Success? ==> |r.value| == |items|
    ensures r.Success? ==> forall i :: 0 <= i < |items| ==> r.value[i] == element(items[i], path + [Index(start + i)]).value
    ensures Reported(r)
    decreases |items|
  {
    if items == [] then Success([])
    else
      var head := element(items[0], path + [Index(start)]);
      var tail := ArrayItems(items[1..], path, start + 1, element);
      assert forall i :: 1 <= i < |items| ==> items[i] == items[1..][i - 1] && start + i == (start + 1) + (i - 1);
      if head.Success? && tail.Success? then Success([head.value] + tail.value)
      else Failure(IssuesOf(head) + IssuesOf(tail))
  }

  /** Each of `items` parses, at its place in the array, to the matching one of `xs`. */
  ghost predicate ItemsParseTo<T>(items: seq<Value>, path: seq<PathSeg>, start: nat,
                                  element: (Value, seq<PathSeg>) -> Parsed<T>, xs: seq<T>) {
    && |xs| == |items|
    && forall i :: 0 <= i < |items| ==> ItemParsesTo(items[i], path + [Index(start + i)], element, xs[i])
  }

  /** `element` accepts the item `x` found at `path` and outputs `v`. */
  ghost predicate ItemParsesTo<T>(x: Value, path: seq<PathSeg>, element: (Value, seq<PathSeg>) -> Parsed<T>, v: T) {
    element(x, path) == Success(v)
  }

  /** Items that each parse to the matching output make the array parse to the outputs. */
  lemma {:induction false} ArrayItemsOf<T>(items: seq<Value>, path: seq<PathSeg>, start: nat,
                                           element: (Value, seq<PathSeg>) -> Parsed<T>, xs: seq<T>)
    requires forall x, p :: Reported(element(x, p))
    requires ItemsParseTo(items, path, start, element, xs)
    ensures ArrayItems(items, path, start, element) == Success(xs)
    decreases |items|
  {
    if items != [] {
      assert forall i :: 1 <= i < |items| ==> items[i] == items[1..][i - 1] && start + i == (start + 1) + (i - 1);
      ArrayItemsOf(items[1..], path, start + 1, element, xs[1..]);
      assert xs == [xs[0]] + xs[1..];
    }
  }

  /** The output of an optional nullable field, as an input value again. */
  function FieldValue<T>(f: Field<T>, encode: T -> Value): Value {
    match f
    case Omitted => Undefined
    case NullValue => Null
    case Given(x) => encode(x)
  }

  /** The object entry that puts `v` under `key`; `undefined` leaves the key out. */
  function Entry(key: string, v: Value): (m: map<string, Value>)
    ensures m.Keys <= {key}
    ensures Get(Obj(m), key) == v
  {
    if v.Undefined? then map[] else map[key := v]
  }

  /** Adding an entry for one key leaves the lookup of every other key alone. */
  lemma GetPastEntry(m: map<string, Value>, key: string, v: Value, k: string)
    requires k != key
    ensures Get(Obj(m + Entry(key, v)), k) == Get(Obj(m), k)
  {
  }

  /** The issue raised when a schema expecting an object is given something else. */
  function NotAnObject<T>(path: seq<PathSeg>): (r: Parsed<T>)
    ensures r.Failure? && Reported(r) && AllUnder(IssuesOf(r), path)
  {
    Failure([Issue(path, InvalidType, None)])
  }

  // ---------------------------------------------------------------------
  // Relocation: the same value parsed at another place
  // ---------------------------------------------------------------------

  /** `issue` with the prefix `from` of its path replaced by `to`; an issue outside `from` is left alone. */
  function Moved(issue: Issue, from: seq<PathSeg>, to: seq<PathSeg>): (r: Issue)
    ensures r.code == issue.code && r.message == issue.message
    ensures from <= issue.path ==> to <= r.path
  {
    if from <= issue.path then issue.(path := to + issue.path[|from|..]) else issue
  }

  /** Every issue of `issues`, in order, moved from `from` to `to`. */
  function Relocated(issues: seq<Issue>, from: seq<PathSeg>, to: seq<PathSeg>): (r: seq<Issue>)
    ensures |r| == |issues|
    ensures forall i :: 0 <= i < |issues| ==> r[i] == Moved(issues[i], from, to)
  {
    seq(|issues|, i requires 0 <= i < |issues| => Moved(issues[i], from, to))
  }

  /** A failure with its issues moved from `from` to `to`; a success is left alone. */
  function RelocatedParse<T>(r: Parsed<T>, from: seq<PathSeg>, to: seq<PathSeg>): (s: Parsed<T>)
    ensures s.Success? <==> r.Success?
    ensures r.Success? ==> s == r
    ensures IssuesOf(s) == Relocated(IssuesOf(r), from, to)
  {
    if r.Failure? then Failure(Relocated(r.error, from, to)) else r
  }

  lemma RelocatedAppend(a: seq<Issue>, b: seq<Issue>, from: seq<PathSeg>, to: seq<PathSeg>)
    ensures Relocated(a + b, from, to) == Relocated(a, from, to) + Relocated(b, from, to)
  {
  }

  lemma RelocatedSingle(issue: Issue, from: seq<PathSeg>, to: seq<PathSeg>)
    ensures Relocated([issue], from, to) == [Moved(issue, from, to)]
  {
  }

  /** An issue at `from + s` moves to `to + s`. */
  lemma MovedBelow(s: seq<PathSeg>, code: IssueCode, message: Option<string>, from: seq<PathSeg>, to: seq<PathSeg>)
    ensures Moved(Issue(from + s, code, message), from, to) == Issue(to + s, code, message)
  {
    assert (from + s)[|from|..] == s;
  }

  /** Moving issues that all lie under `from` to `to` and back restores them. */
  lemma RelocatedBack(issues: seq<Issue>, from: seq<PathSeg>, to: seq<PathSeg>)
    requires AllUnder(issues, from)
    ensures Relocated(Relocated(issues, from, to), to, from) == issues
  {
    forall i | 0 <= i < |issues|
      ensures Moved(Moved(issues[i], from, to), to, from) == issues[i]
    {
      var s := issues[i].path[|from|..];
      assert issues[i].path == from + s;
      MovedBelow(s, issues[i].code, issues[i].message, from, to);
      MovedBelow(s, issues[i].code, issues[i].message, to, from);
    }
  }

  /** The length checks raise the same issues at `to + s` as at `from + s`, moved. */
  lemma LengthIssuesMoved(t: string, s: seq<PathSeg>, b: Bounds, from: seq<PathSeg>, to: seq<PathSeg>)
    ensures LengthIssues(t, to + s, b) == Relocated(LengthIssues(t, from + s, b), from, to)
  {
    MovedBelow(s, TooSmall, b.tooShort, from, to);
    MovedBelow(s, TooBig, b.tooLong, from, to);
    var short := if JsLength(t) < b.min then [Issue(from + s, TooSmall, b.tooShort)] else [];
    var long := if b.max.Some? && JsLength(t) > b.max.value then [Issue(from + s, TooBig, b.tooLong)] else [];
    RelocatedAppend(short, long, from, to);
  }

  /** A trimmed text field parsed at `to + s` rather than `from + s`. */
  lemma TrimmedTextMoved(v: Value, s: seq<PathSeg>, b: Bounds, from: seq<PathSeg>, to: seq<PathSeg>)
    ensures TrimmedText(v, to + s, b) == RelocatedParse(TrimmedText(v, from + s, b), from, to)
  {
    MovedBelow(s, InvalidType, None, from, to);
    RelocatedSingle(Issue(from + s, InvalidType, None), from, to);
    if v.Str? {
      LengthIssuesMoved(Trim(v.s), s, b, from, to);
    }
  }

  /** The number checks raise the same issues at `to + s` as at `from + s`, moved. */
  lemma {:induction false} NumberIssuesMoved(x: real, checks: seq<NumberCheck>, s: seq<PathSeg>,
                                             from: seq<PathSeg>, to: seq<PathSeg>)
    ensures NumberIssues(x, checks, to + s) == Relocated(NumberIssues(x, checks, from + s), from, to)
  {
    if checks != [] {
      NumberIssuesMoved(x, checks[1..], s, from, to);
      var c := CheckIssue(from + s, checks[0]);
      MovedBelow(s, c.code, c.message, from, to);
      var head := if Passes(x, checks[0]) then [] else [c];
      RelocatedAppend(head, NumberIssues(x, checks[1..], from + s), from, to);
    }
  }

  /** A number field parsed at `to + s` rather than `from + s`. */
  lemma NumberMoved(v: Value, s: seq<PathSeg>, checks: seq<NumberCheck>, from: seq<PathSeg>, to: seq<PathSeg>)
    ensures Number(v, to + s, checks) == RelocatedParse(Number(v, from + s, checks), from, to)
  {
    MovedBelow(s, InvalidType, None, from, to);
    RelocatedSingle(Issue(from + s, InvalidType, None), from, to);
    if v.Num? {
      NumberIssuesMoved(v.n, checks, s, from, to);
    }
  }

  /** The modifiers pass a moved inner outcome through. */
  lemma ModifiersMoved<T>(v: Value, d: T, a: Parsed<T>, b: Parsed<T>, from: seq<PathSeg>, to: seq<PathSeg>)
    requires b == RelocatedParse(a, from, to)
    ensures OptionalNullable(v, b) == RelocatedParse(OptionalNullable(v, a), from, to)
    ensures WithDefault(v, d, b) == RelocatedParse(WithDefault(v, d, a), from, to)
  {
  }

  /** A non-object at `to` rather than at `from`. */
  lemma NotAnObjectMoved<T>(from: seq<PathSeg>, to: seq<PathSeg>)
    ensures NotAnObject<T>(to) == RelocatedParse(NotAnObject<T>(from), from, to)
  {
    MovedBelow([], InvalidType, None, from, to);
    assert from + [] == from && to + [] == to;
    RelocatedSingle(Issue(from, InvalidType, None), from, to);
  }
}
