/** The regular expressions of the URL extractors, as scanners over strings.
    Every search pattern has the shape `(?:p1|p2|...)(C{n})` or `(?:p1|p2|...)(C+)`
    for literal prefixes `pk` and a character class `C`; JavaScript tries start
    positions from the left and, at each position, the prefixes in order, and the
    first success is the match. The anchored patterns `^lead C{n}$` and
    `^lead C+$` match the whole string. */
module Scan {
  import opened Wrappers
  import Text

  /** `[A-Za-z0-9_-]`, `[A-Za-z0-9_.-]` and `[^&\n?#]`. */
  datatype CharClass = IdChars | HandleChars | NotQuerySep

  predicate IsAlnum(c: char) {
    ('a' <= c <= 'z') || ('A' <= c <= 'Z') || ('0' <= c <= '9')
  }

  predicate InClass(c: char, cls: CharClass) {
    match cls
    case IdChars => IsAlnum(c) || c == '_' || c == '-'
    case HandleChars => IsAlnum(c) || c == '_' || c == '.' || c == '-'
    case NotQuerySep => c != '&' && c != '\n' && c != '?' && c != '#'
  }

  predicate AllInClass(s: string, cls: CharClass) {
    forall k :: 0 <= k < |s| ==> InClass(s[k], cls)
  }

  /** `{n}` or `+`. */
  datatype Quant = Exactly(n: nat) | OneOrMore

  /** A pattern: an unanchored search with a capture group, or an anchored whole-string test. */
  datatype Pattern =
    | Search(prefixes: seq<string>, cls: CharClass, q: Quant)
    | Whole(lead: string, cls: CharClass, q: Quant)

  /** `m[0]` and `m[1]` of a successful `String.prototype.match`; `group` is `None`
      when the pattern has no capture group. */
  datatype Match = Match(whole: string, group: Option<string>)

  /** `m[1] || m[0]`. */
  function GroupOrWhole(m: Match): string {
    match m.group
    case Some(g) => if g != "" then g else m.whole
    case None => m.whole
  }

  /** The length of the run of class characters starting at `i`. */
  function RunLength(s: string, i: nat, cls: CharClass): (r: nat)
    requires i <= |s|
    ensures i + r <= |s|
    ensures forall k :: i <= k < i + r ==> InClass(s[k], cls)
    ensures i + r == |s| || !InClass(s[i + r], cls)
    decreases |s| - i
  {
    if i < |s| && InClass(s[i], cls) then 1 + RunLength(s, i + 1, cls) else 0
  }

  /** What the greedy quantified class captures at position `j`. */
  function CaptureAt(s: string, j: nat, cls: CharClass, q: Quant): (r: Option<string>)
    ensures r.Some? ==> j + |r.value| <= |s| && r.value == s[j..j + |r.value|] && AllInClass(r.value, cls)
    ensures r.Some? && q.Exactly? ==> |r.value| == q.n
    ensures r.Some? && q.OneOrMore? ==> |r.value| >= 1 && (j + |r.value| == |s| || !InClass(s[j + |r.value|], cls))
    ensures r.None? && q.OneOrMore? ==> j >= |s| || !InClass(s[j], cls)
    ensures r.None? && q.Exactly? ==> j + q.n > |s| || !AllInClass(s[j..j + q.n], cls)
  {
    if j > |s| then None
    else match q
      case Exactly(n) =>
        if j + n <= |s| && AllInClass(s[j..j + n], cls) then Some(s[j..j + n]) else None
      case OneOrMore =>
        var len := RunLength(s, j, cls);
        if len >= 1 then Some(s[j..j + len]) else None
  }

  /** The prefix `p` is present at position `j`. */
  predicate PrefixAt(s: string, j: nat, p: string) {
    j + |p| <= |s| && s[j..j + |p|] == p
  }

  /** The prefix `p` is present at `j` and the quantified class after it captures. */
  predicate Succeeds(s: string, j: nat, p: string, cls: CharClass, q: Quant) {
    PrefixAt(s, j, p) && CaptureAt(s, j + |p|, cls, q).Some?
  }

  /** The first of `prefixes[k..]` that is present at `j` and followed by a capture. */
  function FirstPrefix(s: string, j: nat, prefixes: seq<string>, k: nat, cls: CharClass, q: Quant): (r: Option<nat>)
    requires k <= |prefixes|
    ensures r.Some? ==> k <= r.value < |prefixes| && Succeeds(s, j, prefixes[r.value], cls, q)
    ensures r.None? ==> forall t :: k <= t < |prefixes| ==> !Succeeds(s, j, prefixes[t], cls, q)
    decreases |prefixes| - k
  {
    if k == |prefixes| then None
    else if Succeeds(s, j, prefixes[k], cls, q) then Some(k)
    else FirstPrefix(s, j, prefixes, k + 1, cls, q)
  }

  /** The match starting at `j`: the first prefix that succeeds there and its capture. */
  function MatchAt(s: string, j: nat, prefixes: seq<string>, cls: CharClass, q: Quant): Option<Match> {
    match FirstPrefix(s, j, prefixes, 0, cls, q)
    case Some(t) =>
      var g := CaptureAt(s, j + |prefixes[t]|, cls, q).value;
      Some(Match(prefixes[t] + g, Some(g)))
    case None => None
  }

  /** The leftmost start position at or after `i` where the pattern matches. */
  function Locate(s: string, i: nat, prefixes: seq<string>, cls: CharClass, q: Quant): (r: Option<nat>)
    ensures r.Some? ==> i <= r.value <= |s| && MatchAt(s, r.value, prefixes, cls, q).Some?
    ensures r.Some? ==> forall j :: i <= j < r.value ==> MatchAt(s, j, prefixes, cls, q).None?
    ensures r.None? ==> forall j :: i <= j <= |s| ==> MatchAt(s, j, prefixes, cls, q).None?
    decreases |s| + 1 - i
  {
    if i > |s| then None
    else if MatchAt(s, i, prefixes, cls, q).Some? then Some(i)
    else Locate(s, i + 1, prefixes, cls, q)
  }

  /** `s.match(p)`. */
  function Exec(p: Pattern, s: string): Option<Match>
  {
    match p
    case Search(prefixes, cls, q) =>
      (match Locate(s, 0, prefixes, cls, q)
       case Some(j) => MatchAt(s, j, prefixes, cls, q)
       case None => None)
    case Whole(lead, cls, q) =>
      if Text.StartsWith(s, lead) && CaptureAt(s, |lead|, cls, q) == Some(s[|lead|..]) then Some(Match(s, None)) else None
  }

  /** An anchored pattern matches exactly the strings made of its lead and a class
      run of the right length. */
  lemma WholeMatchIff(lead: string, cls: CharClass, q: Quant, s: string)
    ensures Exec(Whole(lead, cls, q), s).Some? <==>
      Text.StartsWith(s, lead) && AllInClass(s[|lead|..], cls)
      && (if q.Exactly? then |s| == |lead| + q.n else |s| > |lead|)
  {
    if Text.StartsWith(s, lead) && AllInClass(s[|lead|..], cls) {
      var rest := s[|lead|..];
      match q
      case Exactly(n) =>
        if |s| == |lead| + n {
          assert s[|lead|..|lead| + n] == rest;
        }
      case OneOrMore =>
        if |s| > |lead| {
          assert forall k :: |lead| <= k < |s| ==> InClass(s[k], cls) by {
            assert forall k :: |lead| <= k < |s| ==> s[k] == rest[k - |lead|];
          }
          var len := RunLength(s, |lead|, cls);
          assert |lead| + len == |s|;
          assert s[|lead|..|lead| + len] == rest;
        }
    }
  }

  /** Some prefix of `prefixes` occurs in `s` and the quantified class after it captures `g`. */
  ghost predicate CapturedAfter(s: string, prefixes: seq<string>, cls: CharClass, q: Quant, g: string) {
    exists j: nat, t :: 0 <= t < |prefixes| && PrefixAt(s, j, prefixes[t]) && CaptureAt(s, j + |prefixes[t]|, cls, q) == Some(g)
  }

  /** A search pattern's match is the match at the position `Locate` finds. */
  lemma ExecSearch(prefixes: seq<string>, cls: CharClass, q: Quant, s: string)
    requires Exec(Search(prefixes, cls, q), s).Some?
    ensures Locate(s, 0, prefixes, cls, q).Some?
    ensures Exec(Search(prefixes, cls, q), s) == MatchAt(s, Locate(s, 0, prefixes, cls, q).value, prefixes, cls, q)
  {
  }

  /** The match at `j` has the capture after the prefix `FirstPrefix` picks. */
  lemma MatchAtGroup(s: string, j: nat, prefixes: seq<string>, cls: CharClass, q: Quant)
    requires MatchAt(s, j, prefixes, cls, q).Some?
    ensures FirstPrefix(s, j, prefixes, 0, cls, q).Some?
    ensures MatchAt(s, j, prefixes, cls, q).value.group
         == CaptureAt(s, j + |prefixes[FirstPrefix(s, j, prefixes, 0, cls, q).value]|, cls, q)
  {
    var t := FirstPrefix(s, j, prefixes, 0, cls, q).value;
    var c := CaptureAt(s, j + |prefixes[t]|, cls, q);
    assert c == Some(c.value);
  }

  /** Where a search pattern's match starts and which prefix it used. */
  lemma SearchWitness(prefixes: seq<string>, cls: CharClass, q: Quant, s: string) returns (j: nat, t: nat)
    requires Exec(Search(prefixes, cls, q), s).Some?
    ensures j == Locate(s, 0, prefixes, cls, q).value && t == FirstPrefix(s, j, prefixes, 0, cls, q).value
    ensures t < |prefixes| && PrefixAt(s, j, prefixes[t])
    ensures Exec(Search(prefixes, cls, q), s).value.group.Some?
    ensures CaptureAt(s, j + |prefixes[t]|, cls, q) == Exec(Search(prefixes, cls, q), s).value.group
  {
    ExecSearch(prefixes, cls, q, s);
    j := Locate(s, 0, prefixes, cls, q).value;
    MatchAtGroup(s, j, prefixes, cls, q);
    t := FirstPrefix(s, j, prefixes, 0, cls, q).value;
  }

  /** A search pattern's match is a prefix present in `s` followed by its capture. */
  lemma SearchFound(prefixes: seq<string>, cls: CharClass, q: Quant, s: string)
    requires Exec(Search(prefixes, cls, q), s).Some?
    ensures Exec(Search(prefixes, cls, q), s).value.group.Some?
    ensures CapturedAfter(s, prefixes, cls, q, Exec(Search(prefixes, cls, q), s).value.group.value)
    ensures var g := Exec(Search(prefixes, cls, q), s).value.group.value;
      AllInClass(g, cls) && (q.Exactly? ==> |g| == q.n) && (q.OneOrMore? ==> |g| >= 1)
  {
    var j, t := SearchWitness(prefixes, cls, q, s);
    var g := Exec(Search(prefixes, cls, q), s).value.group.value;
    assert CaptureAt(s, j + |prefixes[t]|, cls, q) == Some(g);
  }

  /** A search pattern fails only when no prefix anywhere is followed by a capture. */
  lemma SearchMissed(prefixes: seq<string>, cls: CharClass, q: Quant, s: string, g: string)
    requires Exec(Search(prefixes, cls, q), s).None?
    ensures !CapturedAfter(s, prefixes, cls, q, g)
  {
    forall j: nat, t | 0 <= t < |prefixes| && PrefixAt(s, j, prefixes[t])
      ensures CaptureAt(s, j + |prefixes[t]|, cls, q).None?
    {
      assert MatchAt(s, j, prefixes, cls, q).None?;
    }
  }

  /** Position `j` with prefix `t` is where the search succeeds first: no earlier
      position succeeds with any prefix, and no earlier prefix succeeds at `j`. */
  ghost predicate LeftmostAt(s: string, prefixes: seq<string>, cls: CharClass, q: Quant, j: nat, t: nat) {
    && t < |prefixes| && Succeeds(s, j, prefixes[t], cls, q)
    && (forall j', t' :: 0 <= j' < j && 0 <= t' < |prefixes| ==> !Succeeds(s, j', prefixes[t'], cls, q))
    && (forall t' :: 0 <= t' < t ==> !Succeeds(s, j, prefixes[t'], cls, q))
  }

  /** `g` is what the class captures after the leftmost prefix occurrence that is
      followed by a capture. */
  ghost predicate CapturedFirst(s: string, prefixes: seq<string>, cls: CharClass, q: Quant, g: string) {
    exists j: nat, t: nat :: CapturedAtFirst(s, prefixes, cls, q, j, t, g)
  }

  /** `g` is captured after prefix `t` at position `j`, the leftmost success. */
  ghost predicate CapturedAtFirst(s: string, prefixes: seq<string>, cls: CharClass, q: Quant, j: nat, t: nat, g: string) {
    LeftmostAt(s, prefixes, cls, q, j, t) && CaptureAt(s, j + |prefixes[t]|, cls, q) == Some(g)
  }

  /** The prefix `FirstPrefix` picks is preceded by prefixes that fail at `j`. */
  lemma {:induction false} FirstPrefixEarliest(s: string, j: nat, prefixes: seq<string>, k: nat, cls: CharClass, q: Quant)
    requires k <= |prefixes| && FirstPrefix(s, j, prefixes, k, cls, q).Some?
    ensures forall t :: k <= t < FirstPrefix(s, j, prefixes, k, cls, q).value ==> !Succeeds(s, j, prefixes[t], cls, q)
    decreases |prefixes| - k
  {
    if !Succeeds(s, j, prefixes[k], cls, q) {
      FirstPrefixEarliest(s, j, prefixes, k + 1, cls, q);
    }
  }

  /** No position before the one `Locate` finds succeeds with any prefix. */
  lemma LocateEarliest(s: string, i: nat, prefixes: seq<string>, cls: CharClass, q: Quant)
    requires Locate(s, i, prefixes, cls, q).Some?
    ensures forall j', t' :: i <= j' < Locate(s, i, prefixes, cls, q).value && 0 <= t' < |prefixes| ==>
      !Succeeds(s, j', prefixes[t'], cls, q)
  {
    var j := Locate(s, i, prefixes, cls, q).value;
    forall j', t' | i <= j' < j && 0 <= t' < |prefixes|
      ensures !Succeeds(s, j', prefixes[t'], cls, q)
    {
      assert MatchAt(s, j', prefixes, cls, q).None?;
    }
  }

  /** A search pattern's group is the capture after its leftmost successful prefix. */
  lemma SearchLeftmost(prefixes: seq<string>, cls: CharClass, q: Quant, s: string)
    requires Exec(Search(prefixes, cls, q), s).Some?
    ensures Exec(Search(prefixes, cls, q), s).value.group.Some?
    ensures CapturedFirst(s, prefixes, cls, q, Exec(Search(prefixes, cls, q), s).value.group.value)
  {
    var j, t := SearchWitness(prefixes, cls, q, s);
    LocateEarliest(s, 0, prefixes, cls, q);
    FirstPrefixEarliest(s, j, prefixes, 0, cls, q);
    assert LeftmostAt(s, prefixes, cls, q, j, t);
    assert CapturedAtFirst(s, prefixes, cls, q, j, t, Exec(Search(prefixes, cls, q), s).value.group.value);
  }

  /** Two leftmost successes are the same position and prefix. */
  lemma LeftmostAtUnique(s: string, prefixes: seq<string>, cls: CharClass, q: Quant, j1: nat, t1: nat, j2: nat, t2: nat)
    requires LeftmostAt(s, prefixes, cls, q, j1, t1) && LeftmostAt(s, prefixes, cls, q, j2, t2)
    ensures j1 == j2 && t1 == t2
  {
    assert Succeeds(s, j1, prefixes[t1], cls, q) && Succeeds(s, j2, prefixes[t2], cls, q);
  }

  /** There is only one leftmost capture: any two are at the same position, after
      the same prefix, and capture the same text. */
  lemma CapturedFirstUnique(s: string, prefixes: seq<string>, cls: CharClass, q: Quant,
                            j1: nat, t1: nat, g1: string, j2: nat, t2: nat, g2: string)
    requires CapturedAtFirst(s, prefixes, cls, q, j1, t1, g1) && CapturedAtFirst(s, prefixes, cls, q, j2, t2, g2)
    ensures j1 == j2 && t1 == t2 && g1 == g2
  {
    LeftmostAtUnique(s, prefixes, cls, q, j1, t1, j2, t2);
  }
}
