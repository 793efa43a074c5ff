/** src/handlers/label_selector.rs: the `labels` query parameter, parsed and printed. */
module LabelSelector {
  import opened Wrappers
  import opened Text

  type Pair = (string, string)

  /** The segment that is not `key=value`. */
  datatype LabelSelectorError = LabelSelectorError(badPair: string)

  type Parsed = Result<seq<Pair>, LabelSelectorError>

  /** A trimmed segment the parser rejects: something, but no `=` or nothing before the first one. */
  predicate Malformed(segment: string) {
    segment != [] && ('=' !in segment || segment[0] == '=')
  }

  /** What one comma-separated segment contributes: nothing, a pair, or the failure. */
  function ParseSegment(raw: string): Parsed {
    var segment := Trim(raw);
    if segment == [] then Ok([])
    else
      match SplitOnce(segment, '=')
      case Some((k, v)) => if k == [] then Err(LabelSelectorError(segment)) else Ok([(k, v)])
      case None => Err(LabelSelectorError(segment))
  }

  function ParseSegments(segments: seq<string>): Parsed {
    if segments == [] then Ok([])
    else Append(ParseSegment(segments[0]), ParseSegments(segments[1..]))
  }

  function Parse(raw: string): Parsed {
    ParseSegments(Split(raw, ','))
  }

  /** One parse after another; the earlier failure wins. */
  function Append(a: Parsed, b: Parsed): Parsed {
    if a.Err? then a
    else if b.Err? then b
    else Ok(a.value + b.value)
  }

  lemma AppendAssociative(a: Parsed, b: Parsed, c: Parsed)
    ensures Append(Append(a, b), c) == Append(a, Append(b, c))
  {
    if a.Ok? && b.Ok? && c.Ok? {
      assert a.value + b.value + c.value == a.value + (b.value + c.value);
    }
  }

  lemma AppendNothing(a: Parsed)
    ensures Append(Ok([]), a) == a && Append(a, Ok([])) == a
  {
    if a.Ok? {
      assert [] + a.value == a.value && a.value + [] == a.value;
    }
  }

  method ParseLabelSelector(raw: string) returns (r: Parsed)
    ensures r == Parse(raw)
  {
    var pairs: seq<Pair> := [];
    var segments := Split(raw, ',');
    assert segments[0..] == segments;
    AppendNothing(Parse(raw));
    for i := 0 to |segments|
      invariant Parse(raw) == Append(Ok(pairs), ParseSegments(segments[i..]))
    {
      assert segments[i..][1..] == segments[i + 1..];
      AppendAssociative(Ok(pairs), ParseSegment(segments[i]), ParseSegments(segments[i + 1..]));
      var segment := Trim(segments[i]);
      if segment == [] {
        assert pairs + [] == pairs;
        continue;
      }
      match SplitOnce(segment, '=')
      case Some((k, v)) =>
        if k == [] {
          return Err(LabelSelectorError(segment));
        }
        pairs := pairs + [(k, v)];
      case None =>
        return Err(LabelSelectorError(segment));
    }
    assert pairs + [] == pairs;
    return Ok(pairs);
  }

  function PrintPair(p: Pair): string {
    p.0 + "=" + p.1
  }

  function PrintPairs(pairs: seq<Pair>): (parts: seq<string>)
    ensures |parts| == |pairs| && forall i | 0 <= i < |pairs| :: parts[i] == PrintPair(pairs[i])
  {
    if pairs == [] then [] else [PrintPair(pairs[0])] + PrintPairs(pairs[1..])
  }

  /** Render pairs as a k8s selector. */
  function ToK8sSelector(pairs: seq<Pair>): string {
    Join(PrintPairs(pairs), ",")
  }

  // ── Round trip ─────────────────────────────────────────────────────────

  /** The pairs a parse can produce. */
  predicate Canonical(p: Pair) {
    && p.0 != [] && ',' !in p.0 && '=' !in p.0 && !IsWhitespace(p.0[0])
    && ',' !in p.1 && (p.1 != [] ==> !IsWhitespace(p.1[|p.1| - 1]))
  }

  predicate AllCanonical(pairs: seq<Pair>) {
    forall i | 0 <= i < |pairs| :: Canonical(pairs[i])
  }

  lemma ParseSegmentCanonical(raw: string)
    requires ',' !in raw
    ensures ParseSegment(raw).Ok? ==> AllCanonical(ParseSegment(raw).value)
  {
    var segment := Trim(raw);
    var front, back := TrimCuts(raw);
    if segment != [] && SplitOnce(segment, '=').Some? {
      var (k, v) := SplitOnce(segment, '=').value;
      assert segment == k + ['='] + v;
      assert forall c | c in k || c in v :: c in segment;
      assert forall c | c in segment :: c in raw;
      if k != [] {
        assert k[0] == segment[0];
        if v != [] {
          assert v[|v| - 1] == segment[|segment| - 1];
        }
      }
    }
  }

  lemma {:induction false} ParseSegmentsCanonical(segments: seq<string>)
    requires forall i | 0 <= i < |segments| :: ',' !in segments[i]
    ensures ParseSegments(segments).Ok? ==> AllCanonical(ParseSegments(segments).value)
  {
    if segments != [] {
      ParseSegmentsCanonical(segments[1..]);
      ParseSegmentCanonical(segments[0]);
    }
  }

  /** Every parsed pair has a key and survives printing. */
  lemma ParseCanonical(raw: string)
    ensures Parse(raw).Ok? ==> AllCanonical(Parse(raw).value)
  {
    SplitRemovesSeparator(raw, ',');
    ParseSegmentsCanonical(Split(raw, ','));
  }

  lemma CanonicalSegment(p: Pair)
    requires Canonical(p)
    ensures ',' !in PrintPair(p)
    ensures ParseSegment(PrintPair(p)) == Ok([p])
  {
    var s := PrintPair(p);
    assert s[0] == p.0[0];
    assert s[|s| - 1] == if p.1 == [] then '=' else p.1[|p.1| - 1];
    TrimFixesTrimmed(s);
    assert s == p.0 + ['='] + p.1;
    SplitOnceAtFirst(p.0, '=', p.1);
  }

  lemma {:induction false} ParsePrintedSegments(pairs: seq<Pair>)
    requires AllCanonical(pairs)
    ensures ParseSegments(PrintPairs(pairs)) == Ok(pairs)
  {
    if pairs != [] {
      ParsePrintedSegments(pairs[1..]);
      CanonicalSegment(pairs[0]);
      assert PrintPairs(pairs)[1..] == PrintPairs(pairs[1..]);
      assert [pairs[0]] + pairs[1..] == pairs;
    }
  }

  /** Printing and parsing gives the pairs back for exactly the pairs a parse can produce. */
  lemma RoundTrip(pairs: seq<Pair>)
    ensures Parse(ToK8sSelector(pairs)) == Ok(pairs) <==> AllCanonical(pairs)
  {
    ParseCanonical(ToK8sSelector(pairs));
    if AllCanonical(pairs) {
      if pairs == [] {
        assert Split([], ',') == [[]];
        AppendNothing(ParseSegment([]));
      } else {
        var parts := PrintPairs(pairs);
        forall i | 0 <= i < |parts|
          ensures ',' !in parts[i]
        {
          CanonicalSegment(pairs[i]);
        }
        SplitJoin(parts, ',');
        ParsePrintedSegments(pairs);
      }
    }
  }

  /** Normalising a selector twice is normalising it once. */
  lemma ParsePrintParse(raw: string)
    ensures Parse(raw).Ok? ==> Parse(ToK8sSelector(Parse(raw).value)) == Parse(raw)
  {
    ParseCanonical(raw);
    if Parse(raw).Ok? {
      RoundTrip(Parse(raw).value);
    }
  }

  // ── Comma concatenation and failure ────────────────────────────────────

  lemma {:induction false} ParseSegmentsConcat(a: seq<string>, b: seq<string>)
    ensures ParseSegments(a + b) == Append(ParseSegments(a), ParseSegments(b))
  {
    if a == [] {
      assert a + b == b;
      AppendNothing(ParseSegments(b));
    } else {
      assert (a + b)[1..] == a[1..] + b;
      ParseSegmentsConcat(a[1..], b);
      AppendAssociative(ParseSegment(a[0]), ParseSegments(a[1..]), ParseSegments(b));
    }
  }

  /** Parsing distributes over a comma, failures included. */
  lemma ParseConcat(a: string, b: string)
    ensures Parse(a + "," + b) == Append(Parse(a), Parse(b))
  {
    SplitAtSeparator(a, ',', b);
    ParseSegmentsConcat(Split(a, ','), Split(b, ','));
  }

  /**
    A well-formed segment, with any whitespace around it, is one pair: the key is what comes before
    the first `=`, the value all that follows, neither trimmed on its own. A blank one is no pair.
  */
  lemma SegmentMeans(front: string, key: string, value: string, back: string)
    requires AllWhitespace(front) && AllWhitespace(back)
    requires key != "" && '=' !in key && Trimmed(key + "=" + value)
    ensures ParseSegment(front + (key + "=" + value) + back) == Ok([(key, value)])
    ensures ParseSegment(front) == Ok([])
  {
    TrimGivesText(front, key + "=" + value, back);
    SplitOnceAtFirst(key, '=', value);
    TrimGivesText(front, [], []);
    assert front + [] + [] == front;
  }

  lemma SegmentFailsWhenMalformed(raw: string)
    ensures ParseSegment(raw) == Err(LabelSelectorError(Trim(raw))) <==> Malformed(Trim(raw))
    ensures ParseSegment(raw).Err? <==> Malformed(Trim(raw))
  {
    var segment := Trim(raw);
    if segment != [] && '=' in segment {
      var (k, v) := SplitOnce(segment, '=').value;
      assert segment == k + ['='] + v;
      assert k != [] ==> segment[0] == k[0];
    }
  }

  /** `i` is the first segment the parser rejects. */
  ghost predicate FirstMalformed(segments: seq<string>, i: nat) {
    && i < |segments| && Malformed(Trim(segments[i]))
    && forall j | 0 <= j < i :: !Malformed(Trim(segments[j]))
  }

  lemma {:induction false} ReportsFirstMalformed(segments: seq<string>, i: nat)
    requires FirstMalformed(segments, i)
    ensures ParseSegments(segments) == Err(LabelSelectorError(Trim(segments[i])))
  {
    SegmentFailsWhenMalformed(segments[0]);
    if i > 0 {
      ReportsFirstMalformed(segments[1..], i - 1);
    }
  }

  ghost predicate SomeMalformed(segments: seq<string>) {
    exists i :: 0 <= i < |segments| && Malformed(Trim(segments[i]))
  }

  lemma {:induction false} SegmentsFailWhenMalformed(segments: seq<string>)
    ensures ParseSegments(segments).Err? <==> SomeMalformed(segments)
  {
    if segments != [] {
      SegmentFailsWhenMalformed(segments[0]);
      SegmentsFailWhenMalformed(segments[1..]);
      if SomeMalformed(segments[1..]) {
        var i :| 0 <= i < |segments[1..]| && Malformed(Trim(segments[1..][i]));
        assert segments[i + 1] == segments[1..][i];
      }
      if SomeMalformed(segments) && !Malformed(Trim(segments[0])) {
        var i :| 0 <= i < |segments| && Malformed(Trim(segments[i]));
        assert segments[1..][i - 1] == segments[i];
      }
    }
  }

  /** A parse fails exactly when some segment is malformed, and reports the first one. */
  lemma ParseFailsOnFirstMalformed(raw: string)
    ensures Parse(raw).Err? <==> SomeMalformed(Split(raw, ','))
    ensures forall i: nat | FirstMalformed(Split(raw, ','), i) ::
              Parse(raw) == Err(LabelSelectorError(Trim(Split(raw, ',')[i])))
  {
    var segments := Split(raw, ',');
    SegmentsFailWhenMalformed(segments);
    forall i: nat | FirstMalformed(segments, i)
      ensures Parse(raw) == Err(LabelSelectorError(Trim(segments[i])))
    {
      ReportsFirstMalformed(segments, i);
    }
  }
}
