/** Version keys, tag selection and the update decision (core/auto_updater.py). */
module Versions {
  import opened Wrappers
  import opened Sorting

  // ---------------------------------------------------------------------------
  // Version keys
  // ---------------------------------------------------------------------------

  predicate IsDigit(c: char) {
    '0' <= c <= '9'
  }

  /** Decimal digits with single underscores between them. */
  function ParseDigits(s: string): Option<nat> {
    if s == "" || !IsDigit(s[|s| - 1]) then None
    else
      var d := s[|s| - 1] as int - '0' as int;
      var before := s[..|s| - 1];
      if before == "" then Some(d)
      else
        match ParseDigits(if before[|before| - 1] == '_' then before[..|before| - 1] else before)
        case None => None
        case Some(n) => Some(10 * n + d)
  }

  /** `int(part)`; None where it raises ValueError. */
  function ParseInt(s: string): Option<int> {
    if s != "" && (s[0] == '-' || s[0] == '+') then
      match ParseDigits(s[1..])
      case None => None
      case Some(n) => Some(if s[0] == '-' then -(n as int) else n)
    else
      match ParseDigits(s)
      case None => None
      case Some(n) => Some(n)
  }

  /** `s.split(".")` */
  function SplitDots(s: string): (r: seq<string>)
    ensures r != []
  {
    if s == "" then [""]
    else
      var rest := SplitDots(s[1..]);
      if s[0] == '.' then [""] + rest else [[s[0]] + rest[0]] + rest[1..]
  }

  /** `s.split("rc")` */
  function SplitRc(s: string): (r: seq<string>)
    ensures r != []
  {
    if |s| >= 2 && s[0] == 'r' && s[1] == 'c' then [""] + SplitRc(s[2..])
    else if s == "" then [""]
    else
      var rest := SplitRc(s[1..]);
      [[s[0]] + rest[0]] + rest[1..]
  }

  /** `s.lstrip("v")` */
  function StripV(s: string): string {
    if s != "" && s[0] == 'v' then StripV(s[1..]) else s
  }

  /** What one part between dots appends to the key. */
  function PartKey(part: string): seq<int> {
    match ParseInt(part)
    case Some(n) => [n]
    case None =>
      var sub := SplitRc(part);
      match ParseInt(sub[0])
      case None => [0]
      case Some(n) => [n] + (if |sub| > 1 then [-1, ParseInt(sub[1]).GetOr(0)] else [])
  }

  function KeyOfParts(parts: seq<string>): seq<int> {
    if parts == [] then [] else KeyOfParts(parts[..|parts| - 1]) + PartKey(parts[|parts| - 1])
  }

  function Key(version: string): seq<int> {
    KeyOfParts(SplitDots(StripV(version)))
  }

  /** `_version_key`, with the partial appends its exception handler leaves behind. */
  method VersionKey(version: string) returns (parts: seq<int>)
    ensures parts == Key(version)
  {
    var v := StripV(version);
    var pieces := SplitDots(v);
    parts := [];
    for i := 0 to |pieces|
      invariant parts == KeyOfParts(pieces[..i])
    {
      assert pieces[..i + 1][..i] == pieces[..i];
      ghost var start := parts;
      var n := ParseInt(pieces[i]);
      if n.Some? {
        parts := parts + [n.value];
      } else {
        var sub := SplitRc(pieces[i]);
        var base := ParseInt(sub[0]);
        if base.None? {
          parts := parts + [0];
        } else {
          parts := parts + [base.value];
          if |sub| > 1 {
            parts := parts + [-1];
            var candidate := ParseInt(sub[1]);
            parts := parts + [if candidate.Some? then candidate.value else 0];
          }
        }
      }
      assert parts == start + PartKey(pieces[i]);
    }
    assert pieces[..|pieces|] == pieces;
  }

  // ---------------------------------------------------------------------------
  // Keys invert printing
  // ---------------------------------------------------------------------------

  function PrintNat(n: nat): string {
    var d := ['0' + (n % 10) as char];
    if n < 10 then d else PrintNat(n / 10) + d
  }

  function Join(parts: seq<string>): string
    requires parts != []
  {
    if |parts| == 1 then parts[0] else parts[0] + "." + Join(parts[1..])
  }

  function PrintAll(ns: seq<nat>): seq<string> {
    if ns == [] then [] else PrintAll(ns[..|ns| - 1]) + [PrintNat(ns[|ns| - 1])]
  }

  /** A dotted version number. */
  function Print(ns: seq<nat>): string
    requires ns != []
  {
    Join(PrintAll(ns))
  }

  predicate AllDigits(s: string) {
    forall i :: 0 <= i < |s| ==> IsDigit(s[i])
  }

  lemma {:induction false} ParseUndoesPrint(n: nat)
    ensures AllDigits(PrintNat(n)) && PrintNat(n) != "" && ParseDigits(PrintNat(n)) == Some(n)
  {
    if n >= 10 {
      ParseUndoesPrint(n / 10);
      var s := PrintNat(n);
      assert s[..|s| - 1] == PrintNat(n / 10);
      assert IsDigit(s[..|s| - 1][|s| - 2]);
    }
  }

  lemma ParseIntUndoesPrint(n: nat)
    ensures AllDigits(PrintNat(n)) && PrintNat(n) != "" && ParseInt(PrintNat(n)) == Some(n)
  {
    ParseUndoesPrint(n);
    assert IsDigit(PrintNat(n)[0]);
  }

  lemma {:induction false} SplitDotsOfOne(a: string)
    requires '.' !in a
    ensures SplitDots(a) == [a]
  {
    if a == "" {
    } else {
      SplitDotsOfOne(a[1..]);
      assert [a[0]] + a[1..] == a;
    }
  }

  lemma {:induction false} SplitDotsOfMore(a: string, b: string)
    requires '.' !in a
    ensures SplitDots(a + "." + b) == [a] + SplitDots(b)
  {
    if a == "" {
      assert a + "." + b == ['.'] + b;
    } else {
      assert (a + "." + b)[1..] == a[1..] + "." + b;
      SplitDotsOfMore(a[1..], b);
      assert [a[0]] + a[1..] == a;
    }
  }

  lemma {:induction false} SplitUndoesJoin(parts: seq<string>)
    requires parts != [] && forall p :: p in parts ==> '.' !in p
    ensures SplitDots(Join(parts)) == parts
  {
    if |parts| == 1 {
      SplitDotsOfOne(parts[0]);
    } else {
      SplitUndoesJoin(parts[1..]);
      SplitDotsOfMore(parts[0], Join(parts[1..]));
    }
  }

  /** Parts without dots whose first does not begin with a 'v'. */
  lemma KeyOfJoin(parts: seq<string>)
    requires parts != [] && forall p :: p in parts ==> '.' !in p
    requires parts[0] != "" && parts[0][0] != 'v'
    ensures Key(Join(parts)) == KeyOfParts(parts) && Key("v" + Join(parts)) == KeyOfParts(parts)
  {
    SplitUndoesJoin(parts);
    assert Join(parts)[0] == parts[0][0];
    assert ("v" + Join(parts))[1..] == Join(parts);
  }

  lemma PartKeyOfNumber(n: nat)
    ensures PartKey(PrintNat(n)) == [n]
  {
    ParseIntUndoesPrint(n);
  }

  lemma KeyOfOneMore(parts: seq<string>, part: string)
    ensures KeyOfParts(parts + [part]) == KeyOfParts(parts) + PartKey(part)
  {
    assert (parts + [part])[..|parts|] == parts;
  }

  lemma NumberOneMore(parts: seq<string>, key: seq<int>, n: nat)
    requires KeyOfParts(parts) == key
    ensures KeyOfParts(parts + [PrintNat(n)]) == key + [n]
  {
    KeyOfOneMore(parts, PrintNat(n));
    PartKeyOfNumber(n);
  }

  lemma KeyOfNumbersAfter(before: seq<nat>, n: nat)
    requires KeyOfParts(PrintAll(before)) == before
    ensures KeyOfParts(PrintAll(before + [n])) == before + [n]
  {
    NumberOneMore(PrintAll(before), before, n);
    assert (before + [n])[..|before|] == before;
  }

  lemma LastIsLast(ns: seq<nat>)
    requires ns != []
    ensures ns[..|ns| - 1] + [ns[|ns| - 1]] == ns
  {
  }

  lemma {:induction false} KeyOfNumbers(ns: seq<nat>)
    ensures KeyOfParts(PrintAll(ns)) == ns
  {
    if ns == [] {
      assert PrintAll(ns) == [];
    } else {
      KeyOfNumbers(ns[..|ns| - 1]);
      KeyOfNumbersAfter(ns[..|ns| - 1], ns[|ns| - 1]);
      LastIsLast(ns);
    }
  }

  lemma {:induction false} PartsOfPrint(ns: seq<nat>)
    ensures |PrintAll(ns)| == |ns|
    ensures forall i :: 0 <= i < |ns| ==> PrintAll(ns)[i] == PrintNat(ns[i])
  {
    if ns == [] {
    } else {
      PartsOfPrint(ns[..|ns| - 1]);
    }
  }

  /** A number extended by a digit. */
  function Extended(n: Option<nat>, d: char): Option<nat>
    requires IsDigit(d)
  {
    match n
    case None => None
    case Some(m) => Some(10 * m + (d as int - '0' as int))
  }

  /** A single underscore before a digit is skipped, and none is allowed at the end, at the
      beginning or beside another one. */
  lemma UnderscoresInNumbers(s: string, d: char)
    requires IsDigit(d) && s != ""
    ensures ParseDigits(s + ['_'] + [d]) == Extended(ParseDigits(s), d)
    ensures ParseDigits(s + ['_']) == None && ParseDigits(s + ['_'] + ['_'] + [d]) == None
    ensures ParseDigits(['_'] + [d]) == None
  {
    NoneEndsInUnderscore(s);
    NoneEndsInUnderscore("");
    UnderscoreIsSkipped(s, d);
    UnderscoreIsSkipped(s + ['_'], d);
    assert [] + ['_'] == ['_'];
    assert (['_'] + [d])[..1] == ['_'] && ['_'][..0] == "";
  }

  lemma NoneEndsInUnderscore(s: string)
    ensures ParseDigits(s + ['_']) == None
  {
  }

  lemma UnderscoreIsSkipped(s: string, d: char)
    requires IsDigit(d) && s != ""
    ensures ParseDigits(s + ['_'] + [d]) == Extended(ParseDigits(s), d)
  {
    assert (s + ['_'] + [d])[..|s| + 1] == s + ['_'] && (s + ['_'])[..|s|] == s;
  }

  predicate IsLetter(c: char) {
    'a' <= c <= 'z' || 'A' <= c <= 'Z'
  }

  predicate IsWord(s: string) {
    forall i :: 0 <= i < |s| ==> IsLetter(s[i])
  }

  lemma WordIsNoNumber(s: string)
    requires IsWord(s)
    ensures ParseInt(s) == None
  {
    if s != "" {
      assert IsLetter(s[|s| - 1]) && IsLetter(s[0]);
    }
  }

  lemma {:induction false} SplitRcOfWord(s: string)
    requires IsWord(s)
    ensures forall p :: p in SplitRc(s) ==> IsWord(p)
  {
    if s == "" {
    } else if |s| >= 2 && s[0] == 'r' && s[1] == 'c' {
      SplitRcOfWord(s[2..]);
    } else {
      SplitRcOfWord(s[1..]);
      assert SplitRc(s[1..])[0] in SplitRc(s[1..]);
    }
  }

  /** A part without digits counts as 0, and a candidate without a number as number 0. */
  lemma PartKeyOfWord(w: string, n: nat)
    requires IsWord(w)
    ensures PartKey(w) == [0]
    ensures PartKey(PrintNat(n) + "rc" + w) == [n as int, -1, 0]
  {
    SplitRcOfWord(w);
    assert SplitRc(w)[0] in SplitRc(w);
    WordIsNoNumber(w);
    WordIsNoNumber(SplitRc(w)[0]);
    ParseIntUndoesPrint(n);
    var s := PrintNat(n) + "rc" + w;
    assert IsDigit(s[0]) && s[|PrintNat(n)|] == 'r';
    if ParseDigits(s).Some? {
      ParsedTextHasNoLetters(s);
    }
    SplitRcOfMore(PrintNat(n), w);
    var sub := SplitRc(s);
    assert sub[1] == SplitRc(w)[0];
  }

  /** The key of a dotted version number is its list of numbers, with or without a "v". */
  lemma KeyInvertsPrint(ns: seq<nat>)
    requires ns != []
    ensures Key(Print(ns)) == ns && Key("v" + Print(ns)) == ns
  {
    KeyOfNumbers(ns);
    PartsOfPrint(ns);
    forall p | p in PrintAll(ns) ensures '.' !in p {
      var i :| 0 <= i < |ns| && p == PrintNat(ns[i]);
      ParseUndoesPrint(ns[i]);
    }
    ParseUndoesPrint(ns[0]);
    assert IsDigit(PrintNat(ns[0])[0]);
    KeyOfJoin(PrintAll(ns));
  }

  // ---------------------------------------------------------------------------
  // The order of keys
  // ---------------------------------------------------------------------------

  /** Tuple comparison. */
  predicate Less(a: seq<int>, b: seq<int>) {
    b != [] && (a == [] || a[0] < b[0] || (a[0] == b[0] && Less(a[1..], b[1..])))
  }

  lemma {:induction false} LessIsStrictTotal(a: seq<int>, b: seq<int>, c: seq<int>)
    ensures !Less(a, a)
    ensures Less(a, b) || a == b || Less(b, a)
    ensures Less(a, b) && Less(b, c) ==> Less(a, c)
    ensures !(Less(a, b) && Less(b, a))
  {
    if a != [] && b != [] {
      LessIsStrictTotal(a[1..], b[1..], if c == [] then [] else c[1..]);
      assert a == [a[0]] + a[1..] && b == [b[0]] + b[1..];
    } else if a != [] {
      LessIsStrictTotal(a[1..], [], []);
    }
  }

  /** Comparison is lexicographic: at the first difference, or by length without one. */
  lemma {:induction false} LessIsLexicographic(a: seq<int>, b: seq<int>)
    ensures Less(a, b) <==>
            exists k :: && 0 <= k <= |a| && k < |b| && a[..k] == b[..k] && (k == |a| || a[k] < b[k])
  {
    if b == [] {
    } else if a == [] {
      assert a[..0] == b[..0];
    } else {
      LessIsLexicographic(a[1..], b[1..]);
      if a[0] == b[0] && Less(a[1..], b[1..]) {
        var k :| 0 <= k <= |a[1..]| && k < |b[1..]| && a[1..][..k] == b[1..][..k]
                 && (k == |a[1..]| || a[1..][k] < b[1..][k]);
        assert a[..k + 1] == [a[0]] + a[1..][..k] && b[..k + 1] == [b[0]] + b[1..][..k];
      }
      if k :| 0 < k <= |a| && k < |b| && a[..k] == b[..k] && (k == |a| || a[k] < b[k]) {
        assert a[0] == a[..k][0] == b[..k][0] == b[0];
        assert a[1..][..k - 1] == a[..k][1..] && b[1..][..k - 1] == b[..k][1..];
      }
      if a[0] < b[0] {
        assert a[..0] == b[..0];
      }
    }
  }

  predicate Naturals(a: seq<int>) {
    forall i :: 0 <= i < |a| ==> a[i] >= 0
  }

  /** The key of a release candidate. */
  function CandidateKey(version: seq<int>, m: int): seq<int> {
    version + [-1, m]
  }

  /** A key extended by a negative entry lies between the key and its extensions. */
  lemma {:induction false} LessOfCandidate(a: seq<int>, m: int, b: seq<int>)
    requires Naturals(b)
    ensures Less(CandidateKey(a, m), b) <==> Less(a, b)
    ensures Less(b, CandidateKey(a, m)) <==> b == a || Less(b, a)
  {
    if a != [] && b != [] {
      LessOfCandidate(a[1..], m, b[1..]);
      assert CandidateKey(a, m)[1..] == CandidateKey(a[1..], m);
      assert a == [a[0]] + a[1..] && b == [b[0]] + b[1..];
    }
  }

  lemma {:induction false} SplitRcOfOne(b: string)
    requires AllDigits(b)
    ensures SplitRc(b) == [b]
  {
    if b == "" {
    } else {
      SplitRcOfOne(b[1..]);
      assert [b[0]] + b[1..] == b;
    }
  }

  lemma {:induction false} SplitRcOfMore(a: string, b: string)
    requires AllDigits(a)
    ensures SplitRc(a + "rc" + b) == [a] + SplitRc(b)
  {
    var s := a + "rc" + b;
    if a == "" {
      assert s[2..] == b;
    } else {
      assert s[1..] == a[1..] + "rc" + b;
      assert s[0] == a[0];
      SplitRcOfMore(a[1..], b);
      assert [a[0]] + a[1..] == a;
    }
  }

  lemma {:induction false} ParsedTextHasNoLetters(s: string)
    requires ParseDigits(s).Some?
    ensures forall i :: 0 <= i < |s| ==> IsDigit(s[i]) || s[i] == '_'
  {
    var before := s[..|s| - 1];
    if before != "" {
      ParsedTextHasNoLetters(if before[|before| - 1] == '_' then before[..|before| - 1] else before);
    }
  }

  /** The last part of a release candidate. */
  lemma PartKeyOfCandidate(n: nat, m: nat)
    ensures PartKey(PrintNat(n) + "rc" + PrintNat(m)) == CandidateKey([n], m)
  {
    ParseIntUndoesPrint(n);
    ParseIntUndoesPrint(m);
    var s := PrintNat(n) + "rc" + PrintNat(m);
    assert IsDigit(s[0]) && s[|PrintNat(n)|] == 'r';
    if ParseDigits(s).Some? {
      ParsedTextHasNoLetters(s);
    }
    SplitRcOfMore(PrintNat(n), PrintNat(m));
    SplitRcOfOne(PrintNat(m));
  }

  /** The parts of a release candidate of the version `ns`. */
  function CandidateParts(ns: seq<nat>, m: nat): seq<string>
    requires ns != []
  {
    PrintAll(ns[..|ns| - 1]) + [PrintNat(ns[|ns| - 1]) + "rc" + PrintNat(m)]
  }

  function PrintCandidate(ns: seq<nat>, m: nat): string
    requires ns != []
  {
    Join(CandidateParts(ns, m))
  }

  lemma CandidateOneMore(parts: seq<string>, key: seq<int>, n: nat, m: nat)
    requires KeyOfParts(parts) == key
    ensures KeyOfParts(parts + [PrintNat(n) + "rc" + PrintNat(m)]) == key + CandidateKey([n], m)
  {
    KeyOfOneMore(parts, PrintNat(n) + "rc" + PrintNat(m));
    PartKeyOfCandidate(n, m);
  }

  lemma CandidateKeyOfConcat(before: seq<int>, n: int, m: int)
    ensures before + CandidateKey([n], m) == CandidateKey(before + [n], m)
  {
  }

  lemma KeyOfCandidateAfter(before: seq<nat>, n: nat, m: nat)
    ensures KeyOfParts(PrintAll(before) + [PrintNat(n) + "rc" + PrintNat(m)]) == CandidateKey(before + [n], m)
  {
    KeyOfNumbers(before);
    CandidateOneMore(PrintAll(before), before, n, m);
    CandidateKeyOfConcat(before, n, m);
  }

  lemma KeyOfCandidateParts(ns: seq<nat>, m: nat)
    requires ns != []
    ensures KeyOfParts(CandidateParts(ns, m)) == CandidateKey(ns, m)
  {
    KeyOfCandidateAfter(ns[..|ns| - 1], ns[|ns| - 1], m);
    assert ns[..|ns| - 1] + [ns[|ns| - 1]] == ns;
  }

  lemma CandidatePartsAreClean(ns: seq<nat>, m: nat)
    requires ns != []
    ensures var parts := CandidateParts(ns, m);
            (forall p :: p in parts ==> '.' !in p) && parts[0] != "" && parts[0][0] != 'v'
  {
    var n := |ns| - 1;
    ParseUndoesPrint(ns[n]);
    ParseUndoesPrint(m);
    ParseUndoesPrint(ns[0]);
    assert IsDigit(PrintNat(ns[n])[0]) && IsDigit(PrintNat(ns[0])[0]);
    PartsOfPrint(ns[..n]);
    forall i | 0 <= i < n ensures '.' !in PrintNat(ns[i]) {
      ParseUndoesPrint(ns[i]);
    }
  }

  lemma KeyOfCandidate(ns: seq<nat>, m: nat)
    requires ns != []
    ensures Key(PrintCandidate(ns, m)) == CandidateKey(ns, m)
  {
    CandidatePartsAreClean(ns, m);
    KeyOfJoin(CandidateParts(ns, m));
    KeyOfCandidateParts(ns, m);
  }

  /** A candidate is below a release exactly when its own version is: never below the release
      it is a candidate for, which its key extends. */
  lemma CandidateIsBelowExactly(ns: seq<nat>, m: nat, release: seq<nat>)
    requires ns != [] && release != []
    ensures Less(Key(PrintCandidate(ns, m)), Key(Print(release))) <==> Less(ns, release)
    ensures Less(Key(Print(ns)), Key(PrintCandidate(ns, m)))
  {
    KeyOfCandidate(ns, m);
    KeyInvertsPrint(release);
    KeyInvertsPrint(ns);
    LessOfCandidate(ns, m, release);
    LessOfCandidate(ns, m, ns);
  }

  // ---------------------------------------------------------------------------
  // Tag selection and the update decision
  // ---------------------------------------------------------------------------

  /** The order of `sort(key=_version_key, reverse=True)`. */
  predicate NotOlder(a: string, b: string) {
    !Less(Key(a), Key(b))
  }

  lemma NotOlderIsTotal()
    ensures TotalPreorder(NotOlder)
  {
    forall a: string, b: string ensures NotOlder(a, b) || NotOlder(b, a) {
      LessIsStrictTotal(Key(a), Key(b), []);
    }
    forall a: string, b: string, c: string | NotOlder(a, b) && NotOlder(b, c) ensures NotOlder(a, c) {
      LessIsStrictTotal(Key(a), Key(b), Key(c));
      LessIsStrictTotal(Key(b), Key(c), Key(a));
      LessIsStrictTotal(Key(a), Key(c), Key(b));
    }
  }

  predicate IsVersionTag(t: string) {
    t != "" && t[0] == 'v'
  }

  /** `tag` is a version tag of the list with the greatest key. */
  ghost predicate IsLatest(tags: seq<string>, tag: string) {
    && tag in tags && tag != "" && tag[0] == 'v'
    && forall t :: t in tags && t != "" && t[0] == 'v' ==> !Less(Key(tag), Key(t))
  }

  method LatestTag(tags: seq<string>) returns (latest: Option<string>)
    ensures latest.None? <==> forall t :: t in tags ==> t == "" || t[0] != 'v'
    ensures latest.Some? ==> IsLatest(tags, latest.value)
  {
    var versionTags := [];
    for i := 0 to |tags|
      invariant forall t :: t in versionTags <==> t in tags[..i] && IsVersionTag(t)
    {
      if IsVersionTag(tags[i]) {
        versionTags := versionTags + [tags[i]];
      }
    }
    if versionTags == [] {
      assert forall t :: t in tags ==> t in tags[..|tags|];
      return None;
    }
    NotOlderIsTotal();
    var sorted := StableSort(versionTags, NotOlder);
    StableSortIsStable(versionTags, NotOlder);
    HeadOfStableSort(versionTags, sorted, NotOlder);
    FirstLeastIs(versionTags, NotOlder);
    latest := Some(sorted[0]);
    forall t | t in tags && IsVersionTag(t) ensures !Less(Key(sorted[0]), Key(t)) {
      assert t in tags[..|tags|];
      assert NotOlder(versionTags[FirstLeast(versionTags, NotOlder)], t);
    }
    assert sorted[0] in tags[..|tags|];
  }

  /** An offer is a latest tag above the running version; without one no listed tag is above
      it. */
  ghost predicate Offers(current: string, tags: Option<seq<string>>, offer: Option<string>) {
    match offer
    case Some(tag) => tags.Some? && IsLatest(tags.value, tag) && Less(Key(current), Key(tag))
    case None => tags.Some? ==> forall t :: t in tags.value && IsVersionTag(t) ==> !Less(Key(current), Key(t))
  }

  datatype UpdateState = IDLE | CHECKING

  class AutoUpdater {
    var state: UpdateState
    var lastCheck: Option<real>

    constructor ()
      ensures state == IDLE && lastCheck == None
    {
      state, lastCheck := IDLE, None;
    }

    /** `tags` is None when the tag list could not be fetched. */
    method CheckForUpdate(current: string, tags: Option<seq<string>>, now: real) returns (offer: Option<string>)
      modifies this
      ensures state == IDLE && lastCheck == Some(now)
      ensures Offers(current, tags, offer)
    {
      state := CHECKING;
      lastCheck := Some(now);
      var latest: Option<string> := None;
      if tags.Some? {
        latest := LatestTag(tags.value);
      }
      if latest.None? {
        state := IDLE;
        return None;
      }
      StripVTwice(latest.value);
      if Less(Key(current), Key(StripV(latest.value))) {
        state := IDLE;
        return latest;
      }
      state := IDLE;
      forall t | t in tags.value && IsVersionTag(t) ensures !Less(Key(current), Key(t)) {
        LessIsStrictTotal(Key(current), Key(t), Key(latest.value));
        LessIsStrictTotal(Key(t), Key(latest.value), Key(current));
      }
      return None;
    }
  }

  lemma {:induction false} StripVTwice(s: string)
    ensures StripV(StripV(s)) == StripV(s)
  {
    if s != "" && s[0] == 'v' {
      StripVTwice(s[1..]);
    }
  }

  // ---------------------------------------------------------------------------
  // Installed versions
  // ---------------------------------------------------------------------------

  /** The running version and the tags applied so far. */
  datatype Node = Node(version: string, installed: seq<string>)

  /** An applied tag becomes the running version. */
  function Installed(n: Node, tag: string): Node {
    Node(StripV(tag), n.installed + [tag])
  }

  ghost predicate Increasing(tags: seq<string>) {
    forall i, j :: 0 <= i < j < |tags| ==> Less(Key(tags[i]), Key(tags[j]))
  }

  lemma LessThroughLast(tags: seq<string>, t: string, i: nat)
    requires i < |tags| && Increasing(tags) && Less(Key(tags[|tags| - 1]), Key(t))
    ensures Less(Key(tags[i]), Key(t))
  {
    LessIsStrictTotal(Key(tags[i]), Key(tags[|tags| - 1]), Key(t));
  }

  lemma IncreasingOfAppend(tags: seq<string>, t: string)
    requires Increasing(tags) && (tags != [] ==> Less(Key(tags[|tags| - 1]), Key(t)))
    ensures Increasing(tags + [t])
  {
    forall i, j | 0 <= i < j < |tags + [t]| ensures Less(Key((tags + [t])[i]), Key((tags + [t])[j])) {
      assert (tags + [t])[i] == tags[i];
      if j < |tags| {
        assert (tags + [t])[j] == tags[j];
      } else {
        assert (tags + [t])[j] == t;
        LessThroughLast(tags, t, i);
      }
    }
  }

  /** Installed keys strictly increase, from the key of the version the run starts with. */
  ghost predicate Climbs(start: string, n: Node) {
    && Increasing([start] + n.installed)
    && Key(n.version) == Key(([start] + n.installed)[|n.installed|])
  }

  lemma InstallKeepsClimbing(start: string, n: Node, tag: string)
    requires Climbs(start, n) && Less(Key(n.version), Key(tag))
    ensures Climbs(start, Installed(n, tag))
  {
    var all := [start] + n.installed;
    assert all[|all| - 1] == all[|n.installed|];
    IncreasingOfAppend(all, tag);
    ClimbsAfter(start, n.installed, tag);
  }

  lemma ClimbsAfter(start: string, installed: seq<string>, tag: string)
    requires Increasing([start] + installed + [tag])
    ensures Climbs(start, Node(StripV(tag), installed + [tag]))
  {
    Regrouped(start, installed, tag);
    KeyOfStripped(tag);
  }

  lemma Regrouped(start: string, installed: seq<string>, tag: string)
    ensures [start] + (installed + [tag]) == [start] + installed + [tag]
    ensures ([start] + (installed + [tag]))[|installed + [tag]|] == tag
  {
  }

  lemma KeyOfStripped(tag: string)
    ensures Key(StripV(tag)) == Key(tag)
  {
    StripVTwice(tag);
  }

  lemma IncreasingAreDistinct(first: string, tags: seq<string>, i: nat, j: nat)
    requires Increasing([first] + tags) && i < j < |tags|
    ensures tags[i] != tags[j]
  {
    assert ([first] + tags)[i + 1] == tags[i] && ([first] + tags)[j + 1] == tags[j];
    LessIsStrictTotal(Key(tags[i]), Key(tags[j]), []);
  }

  lemma {:induction false} DistinctFit<T>(s: seq<T>, bound: set<T>)
    requires forall i, j :: 0 <= i < j < |s| ==> s[i] != s[j]
    requires forall x :: x in s ==> x in bound
    ensures |s| <= |bound|
  {
    if s == [] {
    } else {
      var x := s[|s| - 1];
      DistinctFit(s[..|s| - 1], bound - {x});
    }
  }
}
