/**
  Topic names and topic filters (section 4.7 of MQTT 3.1.1): splitting into
  levels, the two grammars, printing a path as a filter, and wildcard matching.
  Everything here is stated for arbitrary bytes, which covers every Rust `str`.
 */
module Topic {
  import opened Wire

  const SLASH: Byte := 0x2F
  const PLUS: Byte := 0x2B
  const HASH: Byte := 0x23
  const DOLLAR: Byte := 0x24
  const MAX_TOPIC_LEN := 65535

  // ---------- levels ----------

  function Split(s: Bytes): (r: seq<Bytes>)
    ensures r != [] && forall l | l in r :: SLASH !in l
  {
    if s == [] then [[]]
    else
      var r := Split(s[1..]);
      if s[0] == SLASH then [[]] + r else [[s[0]] + r[0]] + r[1..]
  }

  function Join(levels: seq<Bytes>): Bytes
    requires levels != []
  {
    if |levels| == 1 then levels[0] else levels[0] + [SLASH] + Join(levels[1..])
  }

  lemma {:induction false} JoinSplit(s: Bytes)
    ensures Join(Split(s)) == s
  {
    if s != [] {
      JoinSplit(s[1..]);
      var r := Split(s[1..]);
      if s[0] == SLASH {
        assert ([[]] + r)[1..] == r;
        assert s == [] + [SLASH] + s[1..];
      } else {
        var q := [[s[0]] + r[0]] + r[1..];
        assert q[1..] == r[1..];
        assert Join(q) == [s[0]] + Join(r);
      }
    }
  }

  lemma {:induction false} SplitJoin(levels: seq<Bytes>)
    requires levels != [] && forall l | l in levels :: SLASH !in l
    ensures Split(Join(levels)) == levels
  {
    var head := levels[0];
    if |levels| == 1 {
      SplitFirst(head, []);
      assert head + [] == head;
      assert levels == [head];
    } else {
      var tail := Join(levels[1..]);
      SplitJoin(levels[1..]);
      SplitAtSlash(head, tail);
      assert Join(levels) == head + [SLASH] + tail;
      assert levels == [head] + levels[1..];
    }
  }

  lemma SplitAtSlash(head: Bytes, tail: Bytes)
    requires SLASH !in head
    ensures Split(head + [SLASH] + tail) == [head] + Split(tail)
  {
    SplitFirst(head, [SLASH] + tail);
    assert ([SLASH] + tail)[1..] == tail;
    assert head + ([SLASH] + tail) == head + [SLASH] + tail;
    assert Split([SLASH] + tail) == [[]] + Split(tail);
    assert head + [] == head;
  }

  /** A slash-free front belongs to the first level. */
  lemma {:induction false} SplitFirst(head: Bytes, s: Bytes)
    requires SLASH !in head
    ensures Split(head + s) == [head + Split(s)[0]] + Split(s)[1..]
  {
    if head == [] {
      assert head + s == s && head + Split(s)[0] == Split(s)[0];
      assert Split(s) == [Split(s)[0]] + Split(s)[1..];
    } else {
      SplitFirst(head[1..], s);
      var r := Split(head[1..] + s);
      assert (head + s)[1..] == head[1..] + s && (head + s)[0] == head[0];
      assert r[1..] == Split(s)[1..];
      assert head + Split(s)[0] == [head[0]] + r[0];
    }
  }

  // ---------- the two grammars ----------

  predicate HasWildcard(level: Bytes) {
    PLUS in level || HASH in level
  }

  /** The fault that the filter grammar finds in level `i` of `n`. */
  function LevelFault(level: Bytes, i: nat, n: nat): Option<Error> {
    if level == [PLUS] then None
    else if level == [HASH] then (if i + 1 == n then None else Some(HashWildcardNotTerminal))
    else if HasWildcard(level) then Some(WildcardMixedWithLiteral)
    else None
  }

  /** The first fault in `levels[i..]`. */
  function FirstFault(levels: seq<Bytes>, i: nat): (r: Option<Error>)
    ensures r.None? <==> forall k | i <= k < |levels| :: LevelFault(levels[k], k, |levels|).None?
    decreases |levels| - i
  {
    if i >= |levels| then None
    else match LevelFault(levels[i], i, |levels|)
         case Some(e) => Some(e)
         case None => FirstFault(levels, i + 1)
  }

  function FilterFault(filter: Bytes): Option<Error> {
    if filter == [] then Some(EmptyTopic)
    else if |filter| > MAX_TOPIC_LEN then Some(TopicTooLong)
    else FirstFault(Split(filter), 0)
  }

  predicate ValidFilter(filter: Bytes) {
    FilterFault(filter).None?
  }

  function TopicFault(topic: Bytes): Option<Error> {
    if topic == [] then Some(EmptyTopic)
    else if |topic| > MAX_TOPIC_LEN then Some(TopicTooLong)
    else if exists l | l in Split(topic) :: HasWildcard(l) then Some(WildcardInPublishTopic)
    else None
  }

  /** Said without levels: a publish topic is 1 to 65535 bytes, none of them a wildcard. */
  lemma TopicFaultByBytes(topic: Bytes)
    ensures TopicFault(topic).None? <==> 1 <= |topic| <= 65_535 && 0x2B !in topic && 0x23 !in topic
    ensures topic == [] ==> TopicFault(topic) == Some(EmptyTopic)
    ensures |topic| > 65_535 ==> TopicFault(topic) == Some(TopicTooLong)
    ensures 1 <= |topic| <= 65_535 && (0x2B in topic || 0x23 in topic) ==> TopicFault(topic) == Some(WildcardInPublishTopic)
  {
    SplitKeepsBytes(topic, PLUS);
    SplitKeepsBytes(topic, HASH);
  }

  lemma {:induction false} SplitKeepsBytes(s: Bytes, b: Byte)
    requires b != SLASH
    ensures b in s <==> exists l | l in Split(s) :: b in l
  {
    if s == [] {
      assert Split(s) == [[]];
    } else {
      SplitKeepsBytes(s[1..], b);
      var r := Split(s[1..]);
      assert s == [s[0]] + s[1..];
      if s[0] == SLASH {
        var q := [[]] + r;
        assert q[1..] == r;
        forall l | l in r ensures l in q {}
      } else {
        var q := [[s[0]] + r[0]] + r[1..];
        assert q[0] in q;
        forall l | l in r[1..] ensures l in q && l in r {}
        assert r == [r[0]] + r[1..];
      }
    }
  }

  /** Levels are joined by the byte 0x2F and contain none. */
  lemma LevelsAreSlashed(levels: seq<Bytes>, s: Bytes)
    ensures |levels| == 1 ==> Join(levels) == levels[0]
    ensures |levels| > 1 ==> Join(levels) == levels[0] + [0x2F] + Join(levels[1..])
    ensures forall l | l in Split(s) :: 0x2F !in l
    ensures Join(Split(s)) == s
  {
    hide Split;
    JoinSplit(s);
    if |levels| > 1 {
      assert levels[0] + ([SLASH] + Join(levels[1..])) == levels[0] + [SLASH] + Join(levels[1..]);
    }
  }

  /** A level that section 4.7.1 allows: `+` and `#` stand alone, and `#` stands last. */
  predicate LevelOk(l: Bytes, last: bool) {
    (0x2B in l ==> l == [0x2B]) && (0x23 in l ==> l == [0x23] && last)
  }

  /** Which filters are valid, and which error the first offending level gives. */
  lemma FilterIsStandard(filter: Bytes)
    ensures var fs := Split(filter);
            && (ValidFilter(filter) <==>
                  1 <= |filter| <= 65_535 && forall k | 0 <= k < |fs| :: LevelOk(fs[k], k == |fs| - 1))
            && (filter == [] ==> FilterFault(filter) == Some(EmptyTopic))
            && (|filter| > 65_535 ==> FilterFault(filter) == Some(TopicTooLong))
            && (1 <= |filter| <= 65_535 ==>
                  forall k | 0 <= k < |fs| && !LevelOk(fs[k], k == |fs| - 1)
                             && (forall j | 0 <= j < k :: LevelOk(fs[j], j == |fs| - 1)) ::
                    FilterFault(filter)
                    == Some(if fs[k] == [0x23] then HashWildcardNotTerminal else WildcardMixedWithLiteral))
  {
    hide Split, LevelFault, LevelOk;
    var fs := Split(filter);
    forall k | 0 <= k < |fs|
      ensures LevelFault(fs[k], k, |fs|)
           == if LevelOk(fs[k], k == |fs| - 1) then None
              else Some(if fs[k] == [0x23] then HashWildcardNotTerminal else WildcardMixedWithLiteral)
    {
      LevelIs(fs[k], k, |fs|);
    }
    if 1 <= |filter| <= 65_535 {
      forall k | 0 <= k < |fs| && !LevelOk(fs[k], k == |fs| - 1) && (forall j | 0 <= j < k :: LevelOk(fs[j], j == |fs| - 1))
        ensures FilterFault(filter)
             == Some(if fs[k] == [0x23] then HashWildcardNotTerminal else WildcardMixedWithLiteral)
      {
        assert forall j | 0 <= j < k :: LevelFault(fs[j], j, |fs|).None?;
        FaultFound(fs, 0, k);
      }
    }
  }

  lemma LevelIs(l: Bytes, i: nat, n: nat)
    requires i < n
    ensures LevelFault(l, i, n)
         == if LevelOk(l, i == n - 1) then None
            else Some(if l == [0x23] then HashWildcardNotTerminal else WildcardMixedWithLiteral)
  {
  }

  lemma {:induction false} FaultFound(levels: seq<Bytes>, i: nat, k: nat)
    requires i <= k < |levels| && LevelFault(levels[k], k, |levels|).Some?
    requires forall j | i <= j < k :: LevelFault(levels[j], j, |levels|).None?
    ensures FirstFault(levels, i) == LevelFault(levels[k], k, |levels|)
    decreases k - i
  {
    hide LevelFault;
    if i < k {
      FaultFound(levels, i + 1, k);
    }
  }

  // ---------- parsing and printing ----------

  datatype PathPattern = Literal(level: Bytes) | Any | Regex(expression: Bytes) | AnyPath

  function PatternOf(level: Bytes): PathPattern {
    if level == [PLUS] then Any else if level == [HASH] then AnyPath else Literal(level)
  }

  function LevelOf(p: PathPattern): Bytes {
    match p
    case Literal(level) => level
    case Any => [PLUS]
    case Regex(_) => [PLUS]
    case AnyPath => [HASH]
  }

  function PatternsOf(levels: seq<Bytes>): seq<PathPattern> {
    seq(|levels|, i requires 0 <= i < |levels| => PatternOf(levels[i]))
  }

  function LevelsOf(path: seq<PathPattern>): seq<Bytes> {
    seq(|path|, i requires 0 <= i < |path| => LevelOf(path[i]))
  }

  /** The result of `parse_subscribe_filter`. */
  function ParsedFilter(filter: Bytes): Result<seq<PathPattern>> {
    match FilterFault(filter)
    case Some(e) => Err(e)
    case None => Ok(PatternsOf(Split(filter)))
  }

  function PathToWireFilter(path: seq<PathPattern>): Bytes {
    if path == [] then [] else Join(LevelsOf(path))
  }

  method ParseSubscribeFilter(filter: Bytes) returns (r: Result<seq<PathPattern>>)
    ensures r == ParsedFilter(filter)
  {
    if filter == [] {
      return Err(EmptyTopic);
    }
    if |filter| > MAX_TOPIC_LEN {
      return Err(TopicTooLong);
    }
    var segments := Split(filter);
    var lastIndex := |segments| - 1;
    var patterns: seq<PathPattern> := [];
    for i := 0 to |segments|
      invariant FirstFault(segments, 0) == FirstFault(segments, i)
      invariant patterns == PatternsOf(segments)[..i]
    {
      var seg := segments[i];
      if seg == [PLUS] {
        patterns := patterns + [Any];
      } else if seg == [HASH] {
        if i != lastIndex {
          return Err(HashWildcardNotTerminal);
        }
        patterns := patterns + [AnyPath];
      } else if PLUS in seg || HASH in seg {
        return Err(WildcardMixedWithLiteral);
      } else {
        patterns := patterns + [Literal(seg)];
      }
    }
    assert PatternsOf(segments)[..|segments|] == PatternsOf(segments);
    return Ok(patterns);
  }

  /** The fast path accepts and rejects as the parser does, with the same error. */
  method ValidateSubscribeFilter(filter: Bytes) returns (r: Result<()>)
    ensures r.Ok? <==> ParsedFilter(filter).Ok?
    ensures r.Err? ==> r.error == ParsedFilter(filter).error
  {
    if filter == [] {
      return Err(EmptyTopic);
    }
    if |filter| > MAX_TOPIC_LEN {
      return Err(TopicTooLong);
    }
    var segments := Split(filter);
    var lastIndex := |segments| - 1;
    for i := 0 to |segments|
      invariant FirstFault(segments, 0) == FirstFault(segments, i)
    {
      var seg := segments[i];
      if seg == [PLUS] {
      } else if seg == [HASH] {
        if i != lastIndex {
          return Err(HashWildcardNotTerminal);
        }
      } else if PLUS in seg || HASH in seg {
        return Err(WildcardMixedWithLiteral);
      }
    }
    return Ok(());
  }

  method ParsePublishTopic(topic: Bytes) returns (r: Result<seq<PathPattern>>)
    ensures r.Ok? <==> TopicFault(topic).None?
    ensures r.Ok? ==> LevelsOf(r.value) == Split(topic) && forall p | p in r.value :: p.Literal?
    ensures r.Err? ==> TopicFault(topic) == Some(r.error)
  {
    if topic == [] {
      return Err(EmptyTopic);
    }
    if |topic| > MAX_TOPIC_LEN {
      return Err(TopicTooLong);
    }
    var segments := Split(topic);
    var patterns: seq<PathPattern> := [];
    for i := 0 to |segments|
      invariant |patterns| == i
      invariant forall k | 0 <= k < i :: patterns[k] == Literal(segments[k]) && !HasWildcard(segments[k])
    {
      if PLUS in segments[i] || HASH in segments[i] {
        assert segments[i] in segments && HasWildcard(segments[i]);
        return Err(WildcardInPublishTopic);
      }
      patterns := patterns + [Literal(segments[i])];
    }
    return Ok(patterns);
  }

  method ValidatePublishTopic(topic: Bytes) returns (r: Result<()>)
    ensures r.Ok? <==> TopicFault(topic).None?
    ensures r.Err? ==> TopicFault(topic) == Some(r.error)
  {
    if topic == [] {
      return Err(EmptyTopic);
    }
    if |topic| > MAX_TOPIC_LEN {
      return Err(TopicTooLong);
    }
    var segments := Split(topic);
    for i := 0 to |segments|
      invariant forall k | 0 <= k < i :: !HasWildcard(segments[k])
    {
      if PLUS in segments[i] || HASH in segments[i] {
        assert segments[i] in segments && HasWildcard(segments[i]);
        return Err(WildcardInPublishTopic);
      }
    }
    return Ok(());
  }

  /** Printing undoes parsing on every accepted filter. */
  lemma PrintUndoesParse(filter: Bytes)
    requires ParsedFilter(filter).Ok?
    ensures PathToWireFilter(ParsedFilter(filter).value) == filter
  {
    var levels := Split(filter);
    assert LevelsOf(PatternsOf(levels)) == levels;
    JoinSplit(filter);
  }

  /** The paths that a filter can spell: literals are plain levels, `#` comes last, the length fits. */
  /** What the parser makes of each level, and what the printer makes of each pattern. */
  lemma PatternsAreStandard(filter: Bytes, path: seq<PathPattern>)
    ensures ParsedFilter(filter).Ok? ==>
              var fs, r := Split(filter), ParsedFilter(filter).value;
              |r| == |fs| && forall i | 0 <= i < |fs| ::
                r[i] == if fs[i] == [0x2B] then Any else if fs[i] == [0x23] then AnyPath else Literal(fs[i])
    ensures path == [] ==> PathToWireFilter(path) == []
    ensures path != [] ==>
              exists ls :: |ls| == |path| && PathToWireFilter(path) == Join(ls) && forall i | 0 <= i < |path| ::
                match path[i]
                case Literal(level) => ls[i] == level
                case Any => ls[i] == [0x2B]
                case Regex(_) => ls[i] == [0x2B]
                case AnyPath => ls[i] == [0x23]
  {
    hide Split, Join, FilterFault;
    if path != [] {
      var ls := LevelsOf(path);
      assert |ls| == |path| && PathToWireFilter(path) == Join(ls);
    }
  }

  predicate Printable(path: seq<PathPattern>) {
    && path != []
    && 1 <= |PathToWireFilter(path)| <= MAX_TOPIC_LEN
    && (forall i | 0 <= i < |path| :: PrintableLevel(path[i], i, |path|))
  }

  predicate PrintableLevel(p: PathPattern, i: nat, n: nat) {
    match p
    case Literal(level) => SLASH !in level && !HasWildcard(level)
    case Any => true
    case Regex(_) => false
    case AnyPath => i == n - 1
  }

  /** Parsing undoes printing exactly on the printable paths. */
  lemma ParseUndoesPrint(path: seq<PathPattern>)
    ensures ParsedFilter(PathToWireFilter(path)) == Ok(path) <==> Printable(path)
  {
    hide ParsedFilter, Printable, PathToWireFilter;
    if Printable(path) {
      PrintableParses(path);
    }
    if ParsedFilter(PathToWireFilter(path)) == Ok(path) {
      ParsedIsPrintable(path);
    }
  }

  lemma PrintableParses(path: seq<PathPattern>)
    requires Printable(path)
    ensures ParsedFilter(PathToWireFilter(path)) == Ok(path)
  {
    hide Split, Join;
    var levels := LevelsOf(path);
    forall l | l in levels ensures SLASH !in l {
      var i :| 0 <= i < |levels| && levels[i] == l;
      assert l == LevelOf(path[i]) && PrintableLevel(path[i], i, |path|);
    }
    SplitJoin(levels);
    assert PatternsOf(levels) == path;
  }

  lemma ParsedIsPrintable(path: seq<PathPattern>)
    requires ParsedFilter(PathToWireFilter(path)) == Ok(path)
    ensures Printable(path)
  {
    hide Split, Join;
    var levels := Split(PathToWireFilter(path));
    forall i | 0 <= i < |path|
      ensures PrintableLevel(path[i], i, |path|)
    {
      assert path[i] == PatternOf(levels[i]) && levels[i] in levels;
      assert LevelFault(levels[i], i, |levels|).None?;
    }
  }

  // ---------- wildcard matching ----------

  predicate LevelMatches(f: Bytes, t: Bytes) {
    f == [PLUS] || f == t
  }

  /** The first `n` levels of the filter match the first `n` levels of the topic. */
  predicate Along(fs: seq<Bytes>, ts: seq<Bytes>, n: nat) {
    n <= |fs| && n <= |ts| && forall i | 0 <= i < n :: fs[i] != [HASH] && LevelMatches(fs[i], ts[i])
  }

  /** Section 4.7.1: level by level, with `#` standing for any tail, the empty one included. */
  predicate Matches(fs: seq<Bytes>, ts: seq<Bytes>) {
    || (Along(fs, ts, |fs|) && |fs| == |ts|)
    || exists n | 0 <= n < |fs| :: fs[n] == [HASH] && Along(fs, ts, n)
  }

  method FilterMatches(filter: Bytes, topicSegs: seq<Bytes>) returns (r: bool)
    ensures r <==> Matches(Split(filter), topicSegs)
  {
    var filterSegs := Split(filter);
    var t, f := 0, 0;
    while f < |filterSegs|
      invariant t == f <= |filterSegs| && Along(filterSegs, topicSegs, f)
    {
      if filterSegs[f] == [HASH] {
        return true;
      } else if filterSegs[f] == [PLUS] {
        if t >= |topicSegs| {
          return false;
        }
        t, f := t + 1, f + 1;
      } else {
        if t >= |topicSegs| || filterSegs[f] != topicSegs[t] {
          return false;
        }
        t, f := t + 1, f + 1;
      }
    }
    return t == |topicSegs|;
  }

  /** For a filter the broker accepts, `#` can only be the last level, so the match is exactly this. */
  lemma ValidFilterMatches(filter: Bytes, ts: seq<Bytes>)
    requires ValidFilter(filter)
    ensures var fs := Split(filter);
            var p := if fs[|fs| - 1] == [0x23] then fs[..|fs| - 1] else fs;
            Matches(fs, ts) <==>
              && |p| <= |ts|
              && (fs[|fs| - 1] != [0x23] ==> |p| == |ts|)
              && forall i | 0 <= i < |p| :: p[i] == [0x2B] || p[i] == ts[i]
  {
    hide Split;
    var fs := Split(filter);
    var last := |fs| - 1;
    assert forall k | 0 <= k < |fs| :: LevelFault(fs[k], k, |fs|).None?;
    if fs[last] == [HASH] {
      var p := fs[..last];
      assert Along(fs, ts, last) <==> |p| <= |ts| && forall i | 0 <= i < |p| :: LevelMatches(p[i], ts[i]);
    }
  }

  /**
    Section 4.7.2 of MQTT 3.1.1: a filter that starts with a wildcard character
    does not match a topic that starts with `$`.
   */
  predicate StandardMatches(filter: Bytes, topic: Bytes) {
    && Matches(Split(filter), Split(topic))
    && !(filter != [] && filter[0] in {PLUS, HASH} && topic != [] && topic[0] == DOLLAR)
  }

  /** The matcher departs from section 4.7.2 exactly where a leading wildcard level meets a `$` topic. */
  lemma DollarTopics(filter: Bytes, topic: Bytes)
    requires ValidFilter(filter)
    ensures var fs, ts := Split(filter), Split(topic);
            (Matches(fs, ts) <==> StandardMatches(filter, topic)) <==>
              !(ts[0] != [] && ts[0][0] == DOLLAR && (fs[0] == [PLUS] || (fs[0] == [HASH] && |fs| == 1)) && Matches(fs, ts))
  {
    hide Matches;
    var fs := Split(filter);
    assert LevelFault(fs[0], 0, |fs|).None?;
    FirstByte(filter);
    FirstByte(topic);
  }

  /** The filter `#` matches the topic `$S`, which section 4.7.2 forbids. */
  lemma DollarWitness()
    ensures ValidFilter([HASH]) && Matches(Split([HASH]), Split([DOLLAR, 0x53]))
    ensures !StandardMatches([HASH], [DOLLAR, 0x53])
  {
    SplitFirst([HASH], []);
    assert [HASH] + [] == [HASH] && Split([HASH]) == [[HASH]];
    assert Along([[HASH]], Split([DOLLAR, 0x53]), 0);
    assert FirstFault([[HASH]], 0).None?;
  }

  lemma FirstByte(s: Bytes)
    ensures Split(s)[0] != [] ==> s != [] && Split(s)[0][0] == s[0]
    ensures s != [] && s[0] != SLASH ==> Split(s)[0] != []
  {
  }

  /** `a/#` also matches `a` itself. */
  lemma HashMatchesParent(ts: seq<Bytes>)
    requires ts != [] && forall t | t in ts :: t != [HASH]
    ensures Matches(ts + [[HASH]], ts)
  {
    var fs := ts + [[HASH]];
    assert forall i | 0 <= i < |ts| :: fs[i] == ts[i] && ts[i] in ts;
    assert fs[|ts|] == [HASH] && Along(fs, ts, |ts|);
  }
}
