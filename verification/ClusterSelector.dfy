/**
  How the cluster reads the selector that src/db/k8s_tekton.rs sends it: the equality-based label
  selectors of Kubernetes, and when they mean the pairs the query was parsed to.
*/
module ClusterSelector {
  import opened Wrappers
  import opened Sequences
  import opened Text
  import opened LabelSelector
  import opened RunsByLabel

  // ── Labels an object can carry ─────────────────────────────────────────

  predicate IsAlphanumeric(c: char) {
    '0' <= c <= '9' || 'a' <= c <= 'z' || 'A' <= c <= 'Z'
  }

  predicate IsNameChar(c: char) {
    IsAlphanumeric(c) || c == '-' || c == '_' || c == '.'
  }

  /** At most 63 name characters, alphanumeric at both ends. */
  predicate ValidName(s: string) {
    && 0 < |s| <= 63 && IsAlphanumeric(s[0]) && IsAlphanumeric(s[|s| - 1])
    && forall i | 0 <= i < |s| :: IsNameChar(s[i])
  }

  predicate IsDnsChar(c: char) {
    '0' <= c <= '9' || 'a' <= c <= 'z'
  }

  predicate ValidDnsLabel(s: string) {
    && s != [] && IsDnsChar(s[0]) && IsDnsChar(s[|s| - 1])
    && forall i | 0 <= i < |s| :: IsDnsChar(s[i]) || s[i] == '-'
  }

  predicate ValidPrefix(s: string) {
    |s| <= 253 && forall i | 0 <= i < |Split(s, '.')| :: ValidDnsLabel(Split(s, '.')[i])
  }

  /** A name, perhaps behind a DNS subdomain and a slash. */
  predicate ValidKey(key: string) {
    match SplitOnce(key, '/')
    case None => ValidName(key)
    case Some((prefix, name)) => ValidPrefix(prefix) && ValidName(name)
  }

  predicate ValidValue(value: string) {
    value == [] || ValidName(value)
  }

  predicate RealLabels(labels: map<string, string>) {
    forall k | k in labels :: ValidKey(k) && ValidValue(labels[k])
  }

  // ── Reading a selector ─────────────────────────────────────────────────

  datatype Token = Word(text: string) | Symbol(text: string)

  predicate IsBlank(c: char) {
    c == ' ' || c == '\t' || c == '\r' || c == '\n'
  }

  predicate IsSpecial(c: char) {
    c in "=!(),><"
  }

  predicate IsWordChar(c: char) {
    !IsBlank(c) && !IsSpecial(c)
  }

  predicate AllWordChars(s: string) {
    forall i | 0 <= i < |s| :: IsWordChar(s[i])
  }

  /** The characters from the start that belong to a word. */
  function WordLength(s: string): (n: nat)
    ensures n <= |s|
    ensures AllWordChars(s[..n]) && (n < |s| ==> !IsWordChar(s[n]))
  {
    if s != [] && IsWordChar(s[0]) then 1 + WordLength(s[1..]) else 0
  }

  /** The longest symbol at the start. */
  function SymbolLength(s: string): (n: nat)
    requires s != []
    ensures 0 < n <= |s|
  {
    if |s| >= 2 && s[1] == '=' && (s[0] == '=' || s[0] == '!') then 2 else 1
  }

  function Lex(s: string): seq<Token>
    decreases |s|
  {
    if s == [] then []
    else if IsBlank(s[0]) then Lex(s[1..])
    else if IsSpecial(s[0]) then [Symbol(s[..SymbolLength(s)])] + Lex(s[SymbolLength(s)..])
    else [Word(s[..WordLength(s)])] + Lex(s[WordLength(s)..])
  }

  datatype Requirement =
    | Equal(key: string, value: string)
    | NotEqual(key: string, value: string)
    | Exists(key: string)
    | Absent(key: string)

  /** `key`, `!key`, or a key, an operator and a value, which may be missing. */
  function ReadTokens(tokens: seq<Token>): Option<Requirement> {
    if |tokens| == 1 && tokens[0].Word? then Some(Exists(tokens[0].text))
    else if |tokens| == 2 && tokens[0] == Symbol("!") && tokens[1].Word? then Some(Absent(tokens[1].text))
    else if 2 <= |tokens| <= 3 && tokens[0].Word? && (|tokens| == 3 ==> tokens[2].Word?) then
      var value := if |tokens| == 3 then tokens[2].text else "";
      if tokens[1] == Symbol("=") || tokens[1] == Symbol("==") then Some(Equal(tokens[0].text, value))
      else if tokens[1] == Symbol("!=") then Some(NotEqual(tokens[0].text, value))
      else None
    else None
  }

  predicate ValidRequirement(r: Requirement) {
    ValidKey(r.key) && (r.Equal? || r.NotEqual? ==> ValidValue(r.value))
  }

  /**
    What the cluster makes of one segment; `None` where it refuses the request. The set-based forms
    are refused here: none of them can hold the `=` that every printed segment has.
  */
  function ReadSegment(segment: string): Option<Requirement> {
    match ReadTokens(Lex(segment))
    case Some(r) => if ValidRequirement(r) then Some(r) else None
    case None => None
  }

  function ReadSegments(segments: seq<string>): Option<seq<Requirement>> {
    if segments == [] then Some([])
    else
      match (ReadSegment(segments[0]), ReadSegments(segments[1..]))
      case (Some(r), Some(rest)) => Some([r] + rest)
      case _ => None
  }

  /** An empty selector asks for everything; otherwise every segment is a requirement. */
  function Read(selector: string): Option<seq<Requirement>> {
    if Lex(selector) == [] then Some([]) else ReadSegments(Split(selector, ','))
  }

  predicate Met(labels: map<string, string>, r: Requirement) {
    match r
    case Equal(k, v) => k in labels && labels[k] == v
    case NotEqual(k, v) => k !in labels || labels[k] != v
    case Exists(k) => k in labels
    case Absent(k) => k !in labels
  }

  predicate Meets(labels: map<string, string>, requirements: seq<Requirement>) {
    forall i | 0 <= i < |requirements| :: Met(labels, requirements[i])
  }

  // ── Pairs that labels can have are read as they are meant ──────────────

  predicate AreLabels(pairs: seq<Pair>) {
    forall i | 0 <= i < |pairs| :: ValidKey(pairs[i].0) && ValidValue(pairs[i].1)
  }

  /** What the cluster reads asks for the same of any object as the pairs do. */
  ghost predicate MeansPairs(pairs: seq<Pair>) {
    var read := Read(ToK8sSelector(pairs));
    && read.Some?
    && forall labels | RealLabels(labels) :: Meets(labels, read.value) <==> Satisfies(labels, pairs)
  }

  lemma NameIsWord(s: string)
    requires ValidName(s)
    ensures AllWordChars(s) && ',' !in s
  {
    assert forall i | 0 <= i < |s| :: IsNameChar(s[i]);
  }

  lemma PrefixIsWord(s: string)
    requires ValidPrefix(s)
    ensures AllWordChars(s)
  {
    forall k | 0 <= k < |s|
      ensures IsWordChar(s[k])
    {
      if s[k] != '.' {
        var i := SplitKeeps(s, '.', k);
        assert ValidDnsLabel(Split(s, '.')[i]);
      }
    }
  }

  lemma KeyIsWord(key: string)
    requires ValidKey(key)
    ensures key != [] && AllWordChars(key) && ',' !in key && '=' !in key
  {
    match SplitOnce(key, '/')
    case None => NameIsWord(key);
    case Some((prefix, name)) =>
      PrefixIsWord(prefix);
      NameIsWord(name);
      assert key == prefix + ['/'] + name;
  }

  lemma {:induction false} WordLengthAt(w: string, rest: string)
    requires AllWordChars(w) && (rest != [] ==> !IsWordChar(rest[0]))
    ensures WordLength(w + rest) == |w|
  {
    if w == [] {
      assert w + rest == rest;
    } else {
      assert (w + rest)[1..] == w[1..] + rest;
      WordLengthAt(w[1..], rest);
    }
  }

  lemma LexWord(w: string, rest: string)
    requires w != [] && AllWordChars(w) && (rest != [] ==> !IsWordChar(rest[0]))
    ensures Lex(w + rest) == [Word(w)] + Lex(rest)
  {
    WordLengthAt(w, rest);
    assert (w + rest)[..|w|] == w && (w + rest)[|w|..] == rest;
    assert IsWordChar(w[0]);
  }

  lemma LexValue(v: string)
    requires AllWordChars(v)
    ensures Lex(v) == if v == [] then [] else [Word(v)]
  {
    if v != [] {
      LexWord(v, []);
      assert v + [] == v;
    }
  }

  /** An operator is a token of its own, unless the value starts with another `=`. */
  lemma LexOperator(op: string, v: string)
    requires op in {"=", "==", "!="} && (op == "=" && v != [] ==> v[0] != '=')
    ensures Lex(op + v) == [Symbol(op)] + Lex(v)
  {
    var s := op + v;
    assert s[..|op|] == op && s[|op|..] == v;
    assert IsSpecial(s[0]);
  }

  lemma LexForm(k: string, op: string, v: string)
    requires k != [] && AllWordChars(k) && AllWordChars(v)
    requires op != [] && !IsWordChar(op[0]) && Lex(op + v) == [Symbol(op)] + Lex(v)
    ensures Lex(k + op + v) == if v == [] then [Word(k), Symbol(op)] else [Word(k), Symbol(op), Word(v)]
  {
    LexWord(k, op + v);
    LexValue(v);
    assert k + op + v == k + (op + v);
  }

  lemma ReadForm(k: string, op: string, v: string)
    requires ValidKey(k) && ValidValue(v) && op in {"=", "==", "!="}
    ensures ReadSegment(k + op + v) == Some(if op == "!=" then NotEqual(k, v) else Equal(k, v))
  {
    KeyIsWord(k);
    if v != [] {
      NameIsWord(v);
      assert IsWordChar(v[0]);
    }
    LexOperator(op, v);
    LexForm(k, op, v);
    ReadForms(k, op, v);
  }

  lemma ReadForms(k: string, op: string, v: string)
    requires op in {"=", "==", "!="}
    ensures ReadTokens(if v == [] then [Word(k), Symbol(op)] else [Word(k), Symbol(op), Word(v)]) ==
            Some(if op == "!=" then NotEqual(k, v) else Equal(k, v))
  {
  }

  function Equals(pairs: seq<Pair>): seq<Requirement> {
    MapSeq(pairs, (p: Pair) => Equal(p.0, p.1))
  }

  lemma {:induction false} LabelPairsAreRead(pairs: seq<Pair>)
    requires AreLabels(pairs)
    ensures ReadSegments(PrintPairs(pairs)) == Some(Equals(pairs))
  {
    if pairs != [] {
      ReadForm(pairs[0].0, "=", pairs[0].1);
      LabelPairsAreRead(pairs[1..]);
      assert PrintPairs(pairs)[1..] == PrintPairs(pairs[1..]);
    }
  }

  lemma PrintedHasNoComma(p: Pair)
    requires ValidKey(p.0) && ValidValue(p.1)
    ensures ',' !in PrintPair(p)
  {
    KeyIsWord(p.0);
    if p.1 != [] {
      NameIsWord(p.1);
    }
  }

  lemma SelectorIsRead(pairs: seq<Pair>)
    requires AreLabels(pairs)
    ensures Read(ToK8sSelector(pairs)) == Some(Equals(pairs))
  {
    if pairs != [] {
      var parts, selector := PrintPairs(pairs), ToK8sSelector(pairs);
      forall i | 0 <= i < |parts|
        ensures ',' !in parts[i]
      {
        PrintedHasNoComma(pairs[i]);
      }
      SplitJoin(parts, ',');
      LabelPairsAreRead(pairs);
      KeyIsWord(pairs[0].0);
      assert selector[0] == parts[0][0] == pairs[0].0[0];
      assert IsWordChar(selector[0]);
    }
  }

  /**
    Where every key and value is one a label can have, the cluster selects by exactly the pairs: for
    every label map, as the archive's query does.
  */
  lemma LiveSelectorMeansPairs(pairs: seq<Pair>, labels: map<string, string>)
    requires AreLabels(pairs)
    ensures var read := Read(ToK8sSelector(pairs));
            read.Some? && (Meets(labels, read.value) <==> Satisfies(labels, pairs))
  {
    SelectorIsRead(pairs);
    if Meets(labels, Equals(pairs)) {
      forall i | 0 <= i < |pairs|
        ensures pairs[i].0 in labels && labels[pairs[i].0] == pairs[i].1
      {
        assert Met(labels, Equals(pairs)[i]);
      }
    }
  }

  /** Then the two halves of the listing ask for the same runs of the namespace. */
  lemma HalvesAskForTheSameRuns(q: Query, namespace: string, pairs: seq<Pair>, limit: nat, row: Row)
    requires AreLabels(pairs) && BindsPairs(q, namespace, pairs, limit) && row.namespace == namespace
    ensures var read := Read(ToK8sSelector(pairs));
            read.Some? && (Selected(q, row) <==> Meets(row.labels, read.value))
  {
    LiveSelectorMeansPairs(pairs, row.labels);
    QueryMeansSelector(q, namespace, pairs, limit, row);
  }

  // ── Other pairs are not ────────────────────────────────────────────────

  lemma {:induction false} LexKeepsOperators(s: string)
    requires '=' in s
    ensures exists t :: t in Lex(s) && t.Symbol? && '=' in t.text
    decreases |s|
  {
    var n := if IsBlank(s[0]) then 1 else if IsSpecial(s[0]) then SymbolLength(s) else WordLength(s);
    assert s == s[..n] + s[n..];
    if '=' in s[n..] {
      LexKeepsOperators(s[n..]);
      var t :| t in Lex(s[n..]) && t.Symbol? && '=' in t.text;
      assert t in Lex(s);
    } else {
      assert '=' in s[..n];
      assert Symbol(s[..n]) in Lex(s);
    }
  }

  /** A printed segment holds a `=`, so it is read as a comparison or not at all. */
  lemma ReadIsComparison(segment: string)
    requires '=' in segment && ReadSegment(segment).Some?
    ensures var r := ReadSegment(segment).value; (r.Equal? || r.NotEqual?) && ValidRequirement(r)
  {
    LexKeepsOperators(segment);
    var t :| t in Lex(segment) && t.Symbol? && '=' in t.text;
  }

  predicate AreComparisons(requirements: seq<Requirement>) {
    forall r | r in requirements :: (r.Equal? || r.NotEqual?) && ValidRequirement(r)
  }

  lemma {:induction false} ReadAreComparisons(segments: seq<string>)
    requires ReadSegments(segments).Some? && forall i | 0 <= i < |segments| :: '=' in segments[i]
    ensures AreComparisons(ReadSegments(segments).value)
  {
    if segments != [] {
      ReadIsComparison(segments[0]);
      ReadAreComparisons(segments[1..]);
    }
  }

  /** A key is to equal two values, or to equal and to differ from one. */
  predicate Conflicting(requirements: seq<Requirement>) {
    exists a, b ::
      && a in requirements && b in requirements && a.Equal? && a.key == b.key
      && ((b.Equal? && a.value != b.value) || (b.NotEqual? && a.value == b.value))
  }

  function EqualPairs(requirements: seq<Requirement>): seq<Pair> {
    if requirements == [] then []
    else
      (if requirements[0].Equal? then [(requirements[0].key, requirements[0].value)] else []) +
      EqualPairs(requirements[1..])
  }

  lemma {:induction false} EqualPairsMember(requirements: seq<Requirement>, p: Pair)
    ensures p in EqualPairs(requirements) <==> Equal(p.0, p.1) in requirements
  {
    if requirements != [] {
      EqualPairsMember(requirements[1..], p);
    }
  }

  /** The labels that the comparisons ask for. */
  function AskedLabels(requirements: seq<Requirement>): map<string, string> {
    MapOf(EqualPairs(requirements))
  }

  lemma AskedIsEqual(requirements: seq<Requirement>, k: string)
    ensures k in AskedLabels(requirements) ==> Equal(k, AskedLabels(requirements)[k]) in requirements
    ensures forall v | Equal(k, v) in requirements :: k in AskedLabels(requirements)
  {
    var pairs := EqualPairs(requirements);
    MapOfEntries(pairs);
    if k in MapOf(pairs) {
      EqualPairsMember(requirements, (k, MapOf(pairs)[k]));
    }
    forall v | Equal(k, v) in requirements
      ensures k in MapOf(pairs)
    {
      EqualPairsMember(requirements, (k, v));
      var i :| 0 <= i < |pairs| && pairs[i] == (k, v);
    }
  }

  lemma AskedMeet(requirements: seq<Requirement>, r: Requirement)
    requires AreComparisons(requirements) && !Conflicting(requirements) && r in requirements
    ensures Met(AskedLabels(requirements), r)
  {
    AskedIsEqual(requirements, r.key);
    if r.key in AskedLabels(requirements) {
      assert Equal(r.key, AskedLabels(requirements)[r.key]) in requirements;
    }
  }

  lemma AskedAreReal(requirements: seq<Requirement>)
    requires AreComparisons(requirements)
    ensures RealLabels(AskedLabels(requirements))
  {
    forall k | k in AskedLabels(requirements)
      ensures ValidKey(k) && ValidValue(AskedLabels(requirements)[k])
    {
      AskedIsEqual(requirements, k);
      assert ValidRequirement(Equal(k, AskedLabels(requirements)[k]));
    }
  }

  /** Comparisons can be met by the labels of some object exactly when no two of them conflict. */
  lemma MetUnlessConflicting(requirements: seq<Requirement>)
    requires AreComparisons(requirements)
    ensures (exists labels :: RealLabels(labels) && Meets(labels, requirements)) <==> !Conflicting(requirements)
  {
    if Conflicting(requirements) {
      var a, b :|
        && a in requirements && b in requirements && a.Equal? && a.key == b.key
        && ((b.Equal? && a.value != b.value) || (b.NotEqual? && a.value == b.value));
      forall labels
        ensures !Meets(labels, requirements)
      {
        assert !Met(labels, a) || !Met(labels, b);
      }
    } else {
      AskedAreReal(requirements);
      forall i | 0 <= i < |requirements|
        ensures Met(AskedLabels(requirements), requirements[i])
      {
        AskedMeet(requirements, requirements[i]);
      }
    }
  }

  lemma ParsedAreComparisons(pairs: seq<Pair>)
    requires AllCanonical(pairs) && pairs != []
    ensures var read := Read(ToK8sSelector(pairs));
            read == ReadSegments(PrintPairs(pairs)) && (read.Some? ==> AreComparisons(read.value))
  {
    var parts, selector := PrintPairs(pairs), ToK8sSelector(pairs);
    forall i | 0 <= i < |parts|
      ensures ',' !in parts[i] && '=' in parts[i]
    {
      CanonicalSegment(pairs[i]);
      assert parts[i][|pairs[i].0|] == '=';
    }
    SplitJoin(parts, ',');
    assert selector[|pairs[0].0|] == parts[0][|pairs[0].0|] == '=';
    LexKeepsOperators(selector);
    if ReadSegments(parts).Some? {
      ReadAreComparisons(parts);
    }
  }

  /** No object carries a pair that is not a label's. */
  lemma OnlyLabelsAreSatisfied(pairs: seq<Pair>, labels: map<string, string>)
    requires RealLabels(labels) && Satisfies(labels, pairs)
    ensures AreLabels(pairs)
  {
  }

  lemma LabelsAreMeant(pairs: seq<Pair>)
    requires AreLabels(pairs)
    ensures MeansPairs(pairs)
  {
    SelectorIsRead(pairs);
    forall labels | RealLabels(labels)
      ensures Meets(labels, Read(ToK8sSelector(pairs)).value) <==> Satisfies(labels, pairs)
    {
      LiveSelectorMeansPairs(pairs, labels);
    }
  }

  lemma ImpossibleIsMeantExactly(pairs: seq<Pair>, requirements: seq<Requirement>)
    requires !AreLabels(pairs) && AreComparisons(requirements)
    ensures (forall labels | RealLabels(labels) :: Meets(labels, requirements) <==> Satisfies(labels, pairs)) <==>
            Conflicting(requirements)
  {
    MetUnlessConflicting(requirements);
    forall labels | RealLabels(labels)
      ensures !Satisfies(labels, pairs)
    {
      if Satisfies(labels, pairs) {
        OnlyLabelsAreSatisfied(pairs, labels);
      }
    }
  }

  /**
    The selector sent means the pairs asked for exactly when every key and value is one a label can
    have; or when, read otherwise, it still asks for the impossible.
  */
  lemma SelectorMeansPairsExactly(raw: string)
    requires Parse(raw).Ok?
    ensures var pairs := Parse(raw).value;
            var read := Read(ToK8sSelector(pairs));
            MeansPairs(pairs) <==> AreLabels(pairs) || (read.Some? && Conflicting(read.value))
  {
    var pairs := Parse(raw).value;
    if AreLabels(pairs) {
      LabelsAreMeant(pairs);
    } else {
      ParseCanonical(raw);
      ParsedAreComparisons(pairs);
      if Read(ToK8sSelector(pairs)).Some? {
        ImpossibleIsMeantExactly(pairs, Read(ToK8sSelector(pairs)).value);
      }
    }
  }

  /** A single pair is meant exactly when it is one a label can have. */
  lemma OnePairIsMeantExactly(raw: string)
    requires Parse(raw).Ok? && |Parse(raw).value| == 1
    ensures MeansPairs(Parse(raw).value) <==> AreLabels(Parse(raw).value)
  {
    ParseCanonical(raw);
    SelectorMeansPairsExactly(raw);
    var pairs := Parse(raw).value;
    ParsedAreComparisons(pairs);
    assert PrintPairs(pairs)[1..] == [];
  }

  // ── Operators the query does not know ──────────────────────────────────

  lemma ReadOne(segment: string)
    requires ReadSegment(segment).Some?
    ensures ReadSegments([segment]) == Some([ReadSegment(segment).value])
  {
    var r := ReadSegment(segment).value;
    assert [segment][1..] == [] && ReadSegments([]) == Some([]);
    assert [r] + [] == [r];
  }

  /** What the cluster reads in a pair printed by itself. */
  lemma PairIsRead(p: Pair, k: string, op: string, v: string)
    requires Canonical(p) && PrintPair(p) == k + op + v
    requires ValidKey(k) && ValidValue(v) && op in {"=", "==", "!="}
    ensures Parse(k + op + v) == Ok([p])
    ensures Read(ToK8sSelector([p])) == Some([if op == "!=" then NotEqual(k, v) else Equal(k, v)])
  {
    RoundTrip([p]);
    ParsedAreComparisons([p]);
    ReadForm(k, op, v);
    ReadOne(PrintPair(p));
    assert PrintPairs([p]) == [PrintPair(p)];
  }

  lemma KeyStartsVisibly(key: string)
    requires ValidKey(key)
    ensures key != [] && !IsWhitespace(key[0])
  {
    if SplitOnce(key, '/').Some? {
      var (prefix, name) := SplitOnce(key, '/').value;
      assert key == prefix + ['/'] + name;
      if prefix != [] && prefix[0] != '.' {
        var i := SplitKeeps(prefix, '.', 0);
        assert ValidDnsLabel(Split(prefix, '.')[i]);
      }
    }
  }

  /**
    `k!=v` asks the archive for a label `k!`, which no object carries, and the cluster for every
    object whose `k` is not `v`.
  */
  lemma NotEqualIsReadByCluster(k: string, v: string)
    requires ValidKey(k) && ValidName(v)
    ensures Parse(k + "!=" + v) == Ok([(k + "!", v)])
    ensures Read(ToK8sSelector([(k + "!", v)])) == Some([NotEqual(k, v)])
    ensures !ValidKey(k + "!")
  {
    KeyIsWord(k);
    KeyStartsVisibly(k);
    NameIsWord(v);
    assert k + "!" + "=" + v == k + "!=" + v;
    PairIsRead((k + "!", v), k, "!=", v);
    assert !IsWordChar((k + "!")[|k|]);
    if ValidKey(k + "!") {
      KeyIsWord(k + "!");
    }
  }

  /** `k==v` asks the archive for the value `=v`, which no label has, and the cluster for `v`. */
  lemma DoubleEqualIsReadByCluster(k: string, v: string)
    requires ValidKey(k) && ValidName(v)
    ensures Parse(k + "==" + v) == Ok([(k, "=" + v)])
    ensures Read(ToK8sSelector([(k, "=" + v)])) == Some([Equal(k, v)])
    ensures !ValidValue("=" + v)
  {
    KeyIsWord(k);
    KeyStartsVisibly(k);
    NameIsWord(v);
    assert k + "=" + ("=" + v) == k + "==" + v;
    PairIsRead((k, "=" + v), k, "==", v);
    assert ("=" + v)[0] == '=';
  }
}
