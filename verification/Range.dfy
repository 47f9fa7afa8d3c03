/**
  * Byte ranges: the parser of the Range header (range.js), and what the gateway serves for one
  * (the range branch of GET /ipfs/:cid in server.js, with the slicing of backends/kubo.js).
  */
module Range {
  import opened Prelude

  datatype Parsed = Ignored | Unsatisfiable | Satisfiable(start: int, end: int)

  // ---------- text ----------

  predicate IsDigit(c: char) { '0' <= c <= '9' }

  predicate AllDigits(s: string) { forall k | 0 <= k < |s| :: IsDigit(s[k]) }

  /** What `trim` takes away. */
  predicate IsSpace(c: char) {
    || c == ' ' || ('\t' <= c <= '\r') || c == '\U{A0}' || c == '\U{1680}' || ('\U{2000}' <= c <= '\U{200A}')
    || c == '\U{2028}' || c == '\U{2029}' || c == '\U{202F}' || c == '\U{205F}' || c == '\U{3000}' || c == '\U{FEFF}'
  }

  /** What `.` does not match. */
  predicate IsLineEnd(c: char) { c == '\n' || c == '\r' || c == '\U{2028}' || c == '\U{2029}' }

  function Trim(s: string): string {
    if s == "" then ""
    else if IsSpace(s[0]) then Trim(s[1..])
    else if IsSpace(s[|s| - 1]) then Trim(s[..|s| - 1])
    else s
  }

  /** Where c first stands in s; |s| if nowhere. */
  function IndexOf(s: string, c: char): (i: nat)
    ensures i <= |s| && (i < |s| ==> s[i] == c) && forall k | 0 <= k < i :: s[k] != c
  {
    if s == "" || s[0] == c then 0 else 1 + IndexOf(s[1..], c)
  }

  function ParseNat(digits: string): nat
    requires AllDigits(digits)
  {
    if digits == "" then 0 else 10 * ParseNat(digits[..|digits| - 1]) + (digits[|digits| - 1] as int - '0' as int)
  }

  const UNIT := "bytes="

  /** /^bytes=(.+)$/ */
  function AfterUnit(header: string): Option<string> {
    if |header| > |UNIT| && header[..|UNIT|] == UNIT && forall k | |UNIT| <= k < |header| :: !IsLineEnd(header[k])
    then Some(header[|UNIT|..]) else None
  }

  /** /^(\d*)-(\d*)$/ */
  function Bounds(spec: string): Option<(string, string)> {
    var i := IndexOf(spec, '-');
    if i < |spec| && AllDigits(spec[..i]) && AllDigits(spec[i + 1..]) then Some((spec[..i], spec[i + 1..])) else None
  }

  // ---------- the parser ----------

  function Parse(header: Option<string>, size: int): Parsed {
    if header.None? || size < 0 then Ignored
    else
      var rest := AfterUnit(header.value);
      if rest.None? then Ignored
      else
        var spec := Trim(rest.value);
        if ',' in spec then Ignored
        else
          var bounds := Bounds(spec);
          if bounds.None? then Ignored else Choose(bounds.value.0, bounds.value.1, size)
  }

  function Choose(rawStart: string, rawEnd: string, size: int): Parsed
    requires AllDigits(rawStart) && AllDigits(rawEnd)
  {
    if rawStart == "" && rawEnd == "" then Ignored
    else if rawStart == "" then
      var suffix := ParseNat(rawEnd);
      if suffix == 0 || size == 0 then Unsatisfiable else Satisfiable(Max(0, size - suffix), size - 1)
    else
      var start := ParseNat(rawStart);
      if start >= size then Unsatisfiable
      else if rawEnd == "" then Satisfiable(start, size - 1)
      else
        var end := ParseNat(rawEnd);
        if start > end then Ignored else Satisfiable(start, Min(end, size - 1))
  }

  /** Whatever the header says, an answered range lies within the file. */
  lemma SatisfiableIsWithin(header: Option<string>, size: int)
    ensures Parse(header, size).Satisfiable? ==> 0 <= Parse(header, size).start <= Parse(header, size).end < size
  {
  }

  predicate TwoNumbers(left: string, right: string) {
    AllDigits(left) && AllDigits(right) && (left != "" || right != "")
  }

  /** Only one range of digits and a dash is ever answered with anything but the whole file. */
  lemma OnlyOneRangeCounts(header: string, size: int)
    requires !Parse(Some(header), size).Ignored?
    ensures header[..Min(|UNIT|, |header|)] == UNIT
    ensures exists left, right :: TwoNumbers(left, right) && Trim(header[Min(|UNIT|, |header|)..]) == left + "-" + right
  {
    var spec := Trim(AfterUnit(header).value);
    var (left, right) := Bounds(spec).value;
    assert TwoNumbers(left, right) && spec == left + "-" + right;
  }

  // ---------- the ranges of section 14.1.2 of RFC 9110 ----------

  datatype Spec = FromTo(first: nat, last: nat) | From(first: nat) | Last(length: nat)

  function PrintNat(n: nat): string {
    if n < 10 then [('0' as int + n) as char] else PrintNat(n / 10) + [('0' as int + n % 10) as char]
  }

  /**
    * What the standard makes of a range: a last position before the first makes it invalid, and it is
    * ignored; an int-range is satisfiable if its first position is below the length, a suffix-range if
    * it is not empty, and both stop at the end of the representation.
    */
  function Standard(spec: Spec, size: nat): Parsed {
    match spec
    case FromTo(a, b) =>
      if b < a then Ignored else if a >= size then Unsatisfiable else Satisfiable(a, Min(b, size - 1))
    case From(a) => if a >= size then Unsatisfiable else Satisfiable(a, size - 1)
    case Last(n) => if n == 0 then Unsatisfiable else Satisfiable(Max(0, size - n), size - 1)
  }

  /** Where the parser leaves the standard: it looks at the length before it looks at the order. */
  predicate Deviates(spec: Spec, size: nat) {
    || (spec.FromTo? && spec.last < spec.first && size <= spec.first)
    || (spec.Last? && spec.length > 0 && size == 0)
  }

  lemma {:induction false} ParsePrintNat(n: nat)
    ensures PrintNat(n) != "" && AllDigits(PrintNat(n)) && ParseNat(PrintNat(n)) == n
    decreases n
  {
    if n >= 10 {
      ParsePrintNat(n / 10);
      var front := PrintNat(n / 10);
      assert PrintNat(n)[..|front|] == front;
    } else {
      assert PrintNat(n)[..0] == "";
    }
  }

  predicate IsPlain(c: char) { IsDigit(c) || c == '-' }

  lemma TrimPlain(s: string)
    requires forall k | 0 <= k < |s| :: IsPlain(s[k])
    ensures Trim(s) == s
  {
  }

  lemma {:induction false} IndexOfDash(left: string, right: string)
    requires AllDigits(left)
    ensures IndexOf(left + "-" + right, '-') == |left|
    decreases |left|
  {
    if left != "" {
      IndexOfDash(left[1..], right);
      assert (left + "-" + right)[1..] == left[1..] + "-" + right;
    }
  }

  /** Digits around a dash are read back as they are. */
  lemma BoundsOf(left: string, right: string)
    requires AllDigits(left) && AllDigits(right)
    ensures Bounds(left + "-" + right) == Some((left, right))
  {
    var s := left + "-" + right;
    IndexOfDash(left, right);
    assert s[..|left|] == left && s[|left| + 1..] == right;
  }

  lemma ParseBounds(left: string, right: string, size: nat)
    requires AllDigits(left) && AllDigits(right)
    ensures Parse(Some(UNIT + (left + "-" + right)), size) == Choose(left, right, size)
  {
    var s := left + "-" + right;
    var header := UNIT + s;
    assert header[..|UNIT|] == UNIT && header[|UNIT|..] == s;
    forall k | 0 <= k < |s| ensures IsPlain(s[k]) {}
    forall k | |UNIT| <= k < |header| ensures !IsLineEnd(header[k]) { assert header[k] == s[k - |UNIT|]; }
    TrimPlain(s);
    BoundsOf(left, right);
  }

  /** The number that a string of digits stands for, if there is one. */
  ghost predicate Reads(digits: string, n: nat) {
    digits != "" && AllDigits(digits) && ParseNat(digits) == n
  }

  lemma ChooseReads(left: string, right: string, spec: Spec, size: nat)
    requires match spec
      case FromTo(a, b) => Reads(left, a) && Reads(right, b)
      case From(a) => Reads(left, a) && right == ""
      case Last(n) => left == "" && Reads(right, n)
    ensures AllDigits(left) && AllDigits(right)
    ensures Choose(left, right, size) == Standard(spec, size) <==> !Deviates(spec, size)
    ensures Deviates(spec, size) ==> Choose(left, right, size) == Unsatisfiable
  {
  }

  /** The text before and after the dash. */
  function Sides(spec: Spec): (string, string) {
    match spec
    case FromTo(a, b) => (PrintNat(a), PrintNat(b))
    case From(a) => (PrintNat(a), "")
    case Last(n) => ("", PrintNat(n))
  }

  lemma SidesRead(spec: Spec, size: nat)
    ensures var (left, right) := Sides(spec);
      && AllDigits(left) && AllDigits(right)
      && (Choose(left, right, size) == Standard(spec, size) <==> !Deviates(spec, size))
      && (Deviates(spec, size) ==> Choose(left, right, size) == Unsatisfiable)
  {
    match spec {
      case FromTo(a, b) => ParsePrintNat(a); ParsePrintNat(b);
      case From(a) => ParsePrintNat(a);
      case Last(n) => ParsePrintNat(n);
    }
    ChooseReads(Sides(spec).0, Sides(spec).1, spec, size);
  }

  function Header(spec: Spec): Option<string> {
    Some(UNIT + (Sides(spec).0 + "-" + Sides(spec).1))
  }

  /** Printed and parsed, a range means what the standard says it means, except exactly where the parser deviates. */
  lemma ParsePrint(spec: Spec, size: nat)
    ensures Parse(Header(spec), size) == Standard(spec, size) <==> !Deviates(spec, size)
    ensures Deviates(spec, size) ==> Parse(Header(spec), size) == Unsatisfiable
  {
    SidesRead(spec, size);
    ParseBounds(Sides(spec).0, Sides(spec).1, size);
  }

  /** Spaces around a range do not matter. */
  lemma {:induction false} TrimPadded(before: string, s: string, after: string)
    requires s != "" && !IsSpace(s[0]) && !IsSpace(s[|s| - 1])
    requires (forall k | 0 <= k < |before| :: IsSpace(before[k])) && (forall k | 0 <= k < |after| :: IsSpace(after[k]))
    ensures Trim(before + s + after) == s
    decreases |before| + |after|
  {
    var text := before + s + after;
    if before != "" {
      assert text[0] == before[0] && text[1..] == before[1..] + s + after;
      TrimPadded(before[1..], s, after);
    } else if after != "" {
      var n := |after| - 1;
      assert text[0] == s[0] && text[|text| - 1] == after[n] && text[..|text| - 1] == before + s + after[..n];
      TrimPadded(before, s, after[..n]);
    } else {
      assert text == s;
    }
  }

  predicate IsPadding(s: string) {
    forall k | 0 <= k < |s| :: IsSpace(s[k]) && !IsLineEnd(s[k])
  }

  /** A range with spaces around it means what it means without them. */
  lemma PaddingIsIgnored(spec: Spec, before: string, after: string, size: nat)
    requires IsPadding(before) && IsPadding(after)
    ensures Parse(Some(UNIT + (before + Text(spec) + after)), size) == Parse(Header(spec), size)
  {
    var s := Text(spec);
    var rest := before + s + after;
    var header := UNIT + rest;
    TextIsPlain(spec);
    assert header[..|UNIT|] == UNIT && header[|UNIT|..] == rest;
    forall k | |UNIT| <= k < |header| ensures !IsLineEnd(header[k]) { PaddedChar(before, s, after, k - |UNIT|); }
    TrimPadded(before, s, after);
    ParseBounds(Sides(spec).0, Sides(spec).1, size);
    BoundsOf(Sides(spec).0, Sides(spec).1);
  }

  lemma PaddedChar(before: string, s: string, after: string, k: nat)
    requires IsPadding(before) && IsPadding(after) && (forall j | 0 <= j < |s| :: IsPlain(s[j]))
    requires k < |before + s + after|
    ensures !IsLineEnd((before + s + after)[k])
  {
  }

  /** The text of a range. */
  function Text(spec: Spec): string {
    Sides(spec).0 + "-" + Sides(spec).1
  }

  lemma TextIsPlain(spec: Spec)
    ensures AllDigits(Sides(spec).0) && AllDigits(Sides(spec).1)
    ensures Text(spec) != "" && forall k | 0 <= k < |Text(spec)| :: IsPlain(Text(spec)[k])
  {
    SidesRead(spec, 0);
  }

  // ---------- the gateway ----------

  type Byte = bv8

  datatype Status = Full | Partial | NotSatisfiable

  /** `contentRange` is the pair of positions of a 206. */
  datatype Response = Response(
    status: Status, contentRange: Option<(int, int)>, contentLength: Option<int>, body: seq<Byte>)

  /** Kubo's /cat: an offset of zero is not sent, and a length beyond the end stops at the end. */
  function Cat(file: seq<Byte>, offset: int, length: Option<int>): seq<Byte> {
    var from := if offset > 0 then Min(offset, |file|) else 0;
    var rest := file[from..];
    if length.None? || length.value >= |rest| then rest else if length.value < 0 then [] else rest[..length.value]
  }

  /** The range branch of the gateway for a file whose recorded size is exact; `head` for a HEAD request. */
  function Respond(file: seq<Byte>, header: Option<string>, head: bool): Response {
    var size := |file|;
    match Parse(header, size)
    case Unsatisfiable => Response(NotSatisfiable, None, None, [])
    case Ignored => Response(Full, None, Some(size), if head then [] else Cat(file, 0, None))
    case Satisfiable(start, end) =>
      Response(Partial, Some((start, end)), Some(end - start + 1),
               if head then [] else Cat(file, start, Some(end - start + 1)))
  }

  /** The promised Content-Length is the number of bytes sent, and those are the bytes the response names. */
  lemma LengthIsKept(file: seq<Byte>, header: Option<string>)
    ensures var r := Respond(file, header, false);
      && (r.contentLength.Some? ==> |r.body| == r.contentLength.value)
      && (r.status.Full? ==> r.body == file)
      && (r.status.Partial? ==>
            && r.contentRange.Some? && 0 <= r.contentRange.value.0 <= r.contentRange.value.1 < |file|
            && r.body == file[r.contentRange.value.0..r.contentRange.value.1 + 1])
      && (r.status.NotSatisfiable? <==> Parse(header, |file|).Unsatisfiable?)
  {
    SatisfiableIsWithin(header, |file|);
    assert file[0..] == file;
  }

  lemma ResponseTo(file: seq<Byte>, spec: Spec)
    requires !Deviates(spec, |file|)
    ensures var r := Respond(file, Header(spec), false);
      match Standard(spec, |file|)
      case Satisfiable(start, end) => r.status.Partial? && 0 <= start <= end < |file| && r.body == file[start..end + 1]
      case Unsatisfiable => r.status.NotSatisfiable? && r.body == []
      case Ignored => r.status.Full? && r.body == file
  {
    ParsePrint(spec, |file|);
    LengthIsKept(file, Header(spec));
  }

  /** HEAD is answered like GET, but for the body. */
  lemma HeadHasNoBody(file: seq<Byte>, header: Option<string>)
    ensures Respond(file, header, true) == Respond(file, header, false).(body := [])
  {
  }

  /** k times n. */
  function Offset(n: nat, k: nat): nat {
    if k == 0 then 0 else Offset(n, k - 1) + n
  }

  lemma {:induction false} OffsetIsProduct(n: nat, k: nat)
    ensures Offset(n, k) == k * n
  {
    if k > 0 { OffsetIsProduct(n, k - 1); }
  }

  function Chunk(n: nat, k: nat): Option<string>
    requires n >= 1
  {
    Header(FromTo(Offset(n, k), Offset(n, k) + n - 1))
  }

  /** What a client gets that asks for the first k chunks of n bytes, one after the other. */
  function Responses(file: seq<Byte>, n: nat, k: nat): seq<Response>
    requires n >= 1
  {
    seq(k, j requires 0 <= j < k => Respond(file, Chunk(n, j), false))
  }

  /** The bodies of the first k responses, one after the other. */
  function Bodies(rs: seq<Response>, k: nat): seq<Byte>
    requires k <= |rs|
  {
    if k == 0 then [] else Bodies(rs, k - 1) + rs[k - 1].body
  }

  /** How the n bytes at `first` are answered: the bytes there are, or 416 past the end. */
  ghost predicate Answers(file: seq<Byte>, n: nat, first: nat, r: Response) {
    if first < |file| then r.status.Partial? && r.body == file[first..Min(first + n, |file|)]
    else r.status.NotSatisfiable? && r.body == []
  }

  ghost predicate AnswersChunk(file: seq<Byte>, n: nat, j: nat, r: Response) {
    Answers(file, n, Offset(n, j), r)
  }

  lemma ChunkAnswered(file: seq<Byte>, n: nat, j: nat)
    requires n >= 1
    ensures AnswersChunk(file, n, j, Respond(file, Chunk(n, j), false))
  {
    PieceAnswered(file, n, Offset(n, j));
  }

  lemma PieceAnswered(file: seq<Byte>, n: nat, first: nat)
    requires n >= 1
    ensures Answers(file, n, first, Respond(file, Header(FromTo(first, first + n - 1)), false))
  {
    ResponseTo(file, FromTo(first, first + n - 1));
  }

  lemma ResponsesAnswer(file: seq<Byte>, n: nat, k: nat)
    requires n >= 1
    ensures |Responses(file, n, k)| == k
    ensures forall j | 0 <= j < k :: AnswersChunk(file, n, j, Responses(file, n, k)[j])
  {
    forall j | 0 <= j < k ensures AnswersChunk(file, n, j, Responses(file, n, k)[j]) { ChunkAnswered(file, n, j); }
  }

  lemma {:induction false} AnswersStitch(file: seq<Byte>, n: nat, rs: seq<Response>, k: nat)
    requires k <= |rs| && forall j | 0 <= j < |rs| :: AnswersChunk(file, n, j, rs[j])
    ensures Bodies(rs, k) == file[..Min(Offset(n, k), |file|)]
    decreases k
  {
    if k > 0 {
      AnswersStitch(file, n, rs, k - 1);
      assert AnswersChunk(file, n, k - 1, rs[k - 1]);
      StitchOne(file, n, Offset(n, k - 1), rs[k - 1]);
    }
  }

  lemma StitchOne(file: seq<Byte>, n: nat, first: nat, r: Response)
    requires Answers(file, n, first, r)
    ensures file[..Min(first, |file|)] + r.body == file[..Min(first + n, |file|)]
  {
  }

  /**
    * Requests of n bytes each stitch the file back together: for every file and every chunk size, each of
    * the requests it takes is answered 206, their bodies make up exactly the file, and the next is answered 416.
    */
  lemma RangesStitchTheFile(file: seq<Byte>, n: nat)
    requires n >= 1
    ensures var k := (|file| + n - 1) / n;
      var rs := Responses(file, n, k + 1);
      && |rs| == k + 1 && Bodies(rs, k) == file
      && (forall j | 0 <= j < k :: rs[j].status.Partial?) && rs[k].status.NotSatisfiable?
  {
    var k := (|file| + n - 1) / n;
    CeilBounds(|file|, n);
    OffsetIsProduct(n, k);
    ResponsesAnswer(file, n, k + 1);
    StitchedByAnswers(file, n, k, Responses(file, n, k + 1));
  }

  lemma StitchedByAnswers(file: seq<Byte>, n: nat, k: nat, rs: seq<Response>)
    requires |rs| == k + 1 && forall j | 0 <= j < |rs| :: AnswersChunk(file, n, j, rs[j])
    requires Offset(n, k) >= |file| && (k > 0 ==> (k - 1) * n < |file|)
    ensures Bodies(rs, k) == file
    ensures (forall j | 0 <= j < k :: rs[j].status.Partial?) && rs[k].status.NotSatisfiable?
  {
    AnswersStitch(file, n, rs, k);
    forall j | 0 <= j < k ensures rs[j].status.Partial? {
      assert AnswersChunk(file, n, j, rs[j]);
      OffsetIsProduct(n, j);
      ProductMonotone(j, k - 1, n);
    }
    assert AnswersChunk(file, n, k, rs[k]);
  }

  lemma CeilBounds(size: nat, n: nat)
    requires n >= 1
    ensures var k := (size + n - 1) / n; k * n >= size && (k > 0 ==> (k - 1) * n < size)
  {
    var k := (size + n - 1) / n;
    assert k * n <= size + n - 1 < k * n + n;
    assert (k - 1) * n == k * n - n;
  }

  lemma ProductMonotone(a: nat, b: int, n: nat)
    requires a <= b
    ensures a * n <= b * n
  {
  }

  /** A download broken off after its first `got` bytes is completed by asking for the rest. */
  lemma ResumeCompletes(file: seq<Byte>, got: nat)
    requires got < |file|
    ensures var r := Respond(file, Header(From(got)), false);
      r.status.Partial? && file[..got] + r.body == file
  {
    ResponseTo(file, From(got));
  }
}
