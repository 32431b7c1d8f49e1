/** How the target box shows the name of the targeted subsystem.

    A name containing `'|'` is shown as several lines, one per non-empty
    piece between the bars.  A name without a bar is shown on one line after
    the built-in abbreviation table of the active language has had its say:
    an ordered list of tests, the first of which that holds replaces the
    whole name by a fixed short form. */
module HudSubsysName {

  // ---------------------------------------------------------------------
  // The C string tests the table uses
  // ---------------------------------------------------------------------

  /** `tolower` on one character (ASCII letters only). */
  function LowerChar(c: char): (l: char)
    ensures 'A' <= c <= 'Z' ==> l as int == c as int + 32
    ensures !('A' <= c <= 'Z') ==> l == c
  {
    if 'A' <= c <= 'Z' then (c as int + 32) as char else c
  }

  function Lower(s: string): (l: string)
    ensures |l| == |s| && forall i :: 0 <= i < |s| ==> l[i] == LowerChar(s[i])
  {
    if s == [] then [] else [LowerChar(s[0])] + Lower(s[1..])
  }

  /** `stricmp(a, b) == 0`: equal up to the case of ASCII letters. */
  function EqualsIgnoreCase(a: string, b: string): (eq: bool)
    ensures eq <==> |a| == |b| && forall i :: 0 <= i < |a| ==> LowerChar(a[i]) == LowerChar(b[i])
  {
    Lower(a) == Lower(b)
  }

  /** `strstr(s, key) != NULL`: `key` occurs in `s`, case mattering. */
  function Contains(s: string, key: string): (c: bool)
    ensures key <= s ==> c
    ensures s == [] ==> (c <==> key == [])
    decreases |s|
  {
    key <= s || (s != [] && Contains(s[1..], key))
  }

  /** `key` sits at offset `i` of `s`. */
  predicate OccursAt(s: string, key: string, i: int)
  {
    0 <= i <= |s| - |key| && s[i..i + |key|] == key
  }

  /** An occurrence at some offset makes `Contains` hold. */
  lemma {:induction false} OccursAtContains(s: string, key: string, i: int)
    requires OccursAt(s, key, i)
    ensures Contains(s, key)
  {
    if i > 0 {
      assert s[1..][i - 1..i - 1 + |key|] == s[i..i + |key|];
      OccursAtContains(s[1..], key, i - 1);
    }
  }

  /** `Contains` holds exactly when `key` sits at some offset of `s`. */
  lemma {:induction false} ContainsAtOffset(s: string, key: string)
    ensures Contains(s, key) <==> exists i :: OccursAt(s, key, i)
  {
    if key <= s {
      assert OccursAt(s, key, 0);
    } else if s != [] && Contains(s[1..], key) {
      ContainsAtOffset(s[1..], key);
      var i :| OccursAt(s[1..], key, i);
      assert s[i + 1..i + 1 + |key|] == s[1..][i..i + |key|];
      assert OccursAt(s, key, i + 1);
    }
    forall i | OccursAt(s, key, i) ensures Contains(s, key) {
      OccursAtContains(s, key, i);
    }
  }

  /** A key holding a character the name lacks cannot occur in it. */
  lemma MissingCharRulesOut(s: string, key: string, j: int)
    requires 0 <= j < |key| && key[j] !in s
    ensures !Contains(s, key)
  {
    if Contains(s, key) {
      ContainsAtOffset(s, key);
      assert false;
    }
  }

  /** A key longer than the name cannot occur in it. */
  lemma {:induction false} ContainsNeedsRoom(s: string, key: string)
    requires Contains(s, key)
    ensures |key| <= |s|
  {
    if !(key <= s) {
      ContainsNeedsRoom(s[1..], key);
    }
  }

  // ---------------------------------------------------------------------
  // The abbreviation chain, as written
  // ---------------------------------------------------------------------

  /** Which built-in translation branch is active. */
  datatype Branch = German | French | Polish | Default

  /** The branch chosen by the language flags; built-in translations can be
      switched off, which leaves the default branch. */
  function ActiveBranch(lclGr: bool, lclFr: bool, lclPl: bool, disableBuiltIn: bool): (b: Branch)
    ensures disableBuiltIn ==> b == Default
    ensures b == German <==> lclGr && !disableBuiltIn
    ensures b == French <==> !lclGr && lclFr && !disableBuiltIn
    ensures b == Polish <==> !lclGr && !lclFr && lclPl && !disableBuiltIn
  {
    if lclGr && !disableBuiltIn then German
    else if lclFr && !disableBuiltIn then French
    else if lclPl && !disableBuiltIn then Polish
    else Default
  }

  // ---------------------------------------------------------------------
  // The abbreviation chain: an ordered first-match rewrite
  // ---------------------------------------------------------------------

  /** One test of the chain: `strstr` (substring, case-sensitive) or
      `stricmp` (whole name, case-insensitive). */
  datatype Test = Has(key: string) | Is(key: string)

  /** A link of the chain: the tests joined by `||`, and the short form. */
  datatype Rule = Rule(tests: seq<Test>, replacement: string)

  predicate TestHolds(t: Test, s: string)
  {
    match t
    case Has(key) => Contains(s, key)
    case Is(key) => EqualsIgnoreCase(s, key)
  }

  /** The tests of a rule joined by `||`, left to right. */
  predicate AnyHolds(tests: seq<Test>, s: string)
  {
    tests != [] && (TestHolds(tests[0], s) || AnyHolds(tests[1..], s))
  }

  predicate RuleMatches(rule: Rule, s: string)
  {
    AnyHolds(rule.tests, s)
  }

  /** Apply the first rule whose test holds; keep the name when none does. */
  function Rewrite(rules: seq<Rule>, s: string): (r: string)
    ensures r == s || exists j :: 0 <= j < |rules| && r == rules[j].replacement
  {
    if rules == [] then s
    else if RuleMatches(rules[0], s) then rules[0].replacement
    else Rewrite(rules[1..], s)
  }

  /** The first rule that matches decides the result. */
  lemma {:induction false} RewriteTakesFirstMatch(rules: seq<Rule>, s: string, k: int)
    requires 0 <= k < |rules| && RuleMatches(rules[k], s)
    requires forall j :: 0 <= j < k ==> !RuleMatches(rules[j], s)
    ensures Rewrite(rules, s) == rules[k].replacement
  {
    if k > 0 {
      assert !RuleMatches(rules[0], s);
      assert rules[1..][k - 1] == rules[k];
      RewriteTakesFirstMatch(rules[1..], s, k - 1);
    }
  }

  /** With no rule matching, the name is kept. */
  lemma {:induction false} RewriteKeepsUnmatched(rules: seq<Rule>, s: string)
    requires forall j :: 0 <= j < |rules| ==> !RuleMatches(rules[j], s)
    ensures Rewrite(rules, s) == s
  {
    if rules != [] {
      assert !RuleMatches(rules[0], s);
      RewriteKeepsUnmatched(rules[1..], s);
    }
  }

  /** The abbreviation table of each branch, in the order of the chain. */
  function Table(b: Branch): (t: seq<Rule>)
    ensures b == Default <==> |t| == 3
    ensures b != Default ==> |t| >= 8
  {
    match b
    case German => GermanTable()
    case French => FrenchTable()
    case Polish => PolishTable()
    case Default => DefaultTable()
  }

  /** The chain of `hud_targetbox_truncate_subsys_name` for each language. */
  function GermanTable(): (t: seq<Rule>)
    ensures |t| == 13
  {
    [ Rule([Has("communication")], "Komm"),
      Rule([Is("weapons")], "Waffen"),
      Rule([Has("engine"), Has("Engine")], "Antrieb"),
      Rule([Is("sensors")], "Sensoren"),
      Rule([Has("navigat")], "Nav"),
      Rule([Has("fighterbay"), Has("Fighterbay")], "J\U{84}gerhangar"),
      Rule([Has("missile")], "Raketenwerfer"),
      Rule([Has("laser"), Has("turret")], "Gesch\U{81}tzturm"),
      Rule([Has("Command Tower"), Has("Bridge")], "Br\U{81}cke"),
      Rule([Has("Barracks")], "Quartiere"),
      Rule([Has("Reactor")], "Reaktor"),
      Rule([Has("RadarDish")], "Radarantenne"),
      Rule([Is("Gas Collector")], "Sammler")]
  }

  function FrenchTable(): (t: seq<Rule>)
    ensures |t| == 8
  {
    [ Rule([Has("communication")], "comm"),
      Rule([Is("weapons")], "armes"),
      Rule([Has("engine")], "moteur"),
      Rule([Is("sensors")], "detecteurs"),
      Rule([Has("navi")], "nav"),
      Rule([Has("missile")], "lanceur de missiles"),
      Rule([Has("fighter")], "baie de chasse"),
      Rule([Has("laser"), Has("turret"), Has("missile")], "tourelle")]
  }

  function PolishTable(): (t: seq<Rule>)
    ensures |t| == 13
  {
    [ Rule([Has("communication")], "komunikacja"),
      Rule([Is("weapons")], "uzbrojenie"),
      Rule([Has("engine"), Has("Engine")], "silnik"),
      Rule([Is("sensors")], "sensory"),
      Rule([Has("navigat")], "nawigacja"),
      Rule([Has("fighterbay"), Has("Fighterbay")], "dok my\U{9C}liw."),
      Rule([Has("missile")], "wie\U{BF}. rakiet."),
      Rule([Has("laser"), Has("turret")], "wie\U{BF}yczka"),
      Rule([Has("Command Tower"), Has("Bridge")], "mostek"),
      Rule([Has("Barracks")], "koszary"),
      Rule([Has("Reactor")], "reaktor"),
      Rule([Has("RadarDish"), Has("Radar Dish")], "antena radaru"),
      Rule([Is("Gas Collector")], "zbieracz gazu")]
  }

  /** With no built-in translation active: the English short forms. */
  function DefaultTable(): (t: seq<Rule>)
    ensures |t| == 3
  {
    [ Rule([Has("communication")], "comm"),
      Rule([Has("navigation")], "nav"),
      Rule([Has("gas collector")], "collector")]
  }

  /** `hud_targetbox_truncate_subsys_name`: the name, or the abbreviation of
      the first test in the active branch's chain that holds. */
  function TruncateSubsysName(b: Branch, s: string): (r: string)
    ensures r == s || exists j :: 0 <= j < |Table(b)| && r == Table(b)[j].replacement
  {
    Rewrite(Table(b), s)
  }

  /** A name that names the weapons subsystem, in any case, is abbreviated
      by the second rule of every built-in translation: the first rule needs
      a name longer than seven characters. */
  lemma WeaponsAbbreviated(b: Branch, s: string)
    requires b != Default && EqualsIgnoreCase(s, "weapons")
    ensures TruncateSubsysName(b, s) == Table(b)[1].replacement
    ensures b == German ==> TruncateSubsysName(b, s) == "Waffen"
  {
    TranslationsOpenAlike(b);
    WeaponsRuleSecond(Table(b), s);
  }

  /** Every built-in translation opens its chain with the "communication"
      substring test followed by the "weapons" whole-name test. */
  lemma TranslationsOpenAlike(b: Branch)
    requires b != Default
    ensures |Table(b)| >= 2
    ensures Table(b)[0].tests == [Has("communication")] && Table(b)[1].tests == [Is("weapons")]
  {
  }

  /** A rule with one test matches exactly when that test holds. */
  lemma SingleTestRule(r: Rule, s: string)
    requires |r.tests| == 1
    ensures RuleMatches(r, s) <==> TestHolds(r.tests[0], s)
  {
    assert r.tests[1..] == [];
    assert !AnyHolds(r.tests[1..], s);
  }

  /** `stricmp` can only report equality for names of the same length. */
  lemma IsNeedsLength(s: string, key: string)
    requires EqualsIgnoreCase(s, key)
    ensures |s| == |key|
  {
    assert |Lower(s)| == |Lower(key)|;
  }

  /** A chain opening with the "communication" substring test and then the
      "weapons" whole-name test sends every spelling of "weapons" to its
      second rule. */
  lemma WeaponsRuleSecond(rules: seq<Rule>, s: string)
    requires |rules| >= 2 && EqualsIgnoreCase(s, "weapons")
    requires rules[0].tests == [Has("communication")] && rules[1].tests == [Is("weapons")]
    ensures Rewrite(rules, s) == rules[1].replacement
  {
    IsNeedsLength(s, "weapons");
    if Contains(s, "communication") {
      ContainsNeedsRoom(s, "communication");
    }
    SingleTestRule(rules[0], s);
    SingleTestRule(rules[1], s);
    RewriteTakesFirstMatch(rules, s, 1);
  }

  /** Once a rule matches, only it and the rules before it can decide the
      result: a short form none of them gives is never produced. */
  lemma {:induction false} RewriteStopsBy(rules: seq<Rule>, s: string, k: int, avoided: string)
    requires 0 <= k < |rules| && RuleMatches(rules[k], s)
    requires forall j :: 0 <= j <= k ==> rules[j].replacement != avoided
    ensures Rewrite(rules, s) != avoided
  {
    if !RuleMatches(rules[0], s) {
      assert forall j :: 0 <= j <= k - 1 ==> rules[1..][j] == rules[j + 1];
      RewriteStopsBy(rules[1..], s, k - 1, avoided);
    }
  }

  /** In the French chain the missile test comes before the turret rule, so
      the turret rule's own missile test can never fire: a name that mentions
      a missile is never called "tourelle". */
  lemma FrenchMissileNeverTurret(s: string)
    requires Contains(s, "missile")
    ensures TruncateSubsysName(French, s) != "tourelle"
  {
    var t := FrenchTable();
    SingleTestRule(t[5], s);
    forall j | 0 <= j <= 5 ensures t[j].replacement != "tourelle" {
      assert |t[j].replacement| != |"tourelle"|;
    }
    RewriteStopsBy(t, s, 5, "tourelle");
  }

  /** None of the five French rules before the missile rule matches a name
      without a 'c' or an 'n' and of a length other than seven: each
      substring key holds one of those letters, and both whole-name keys
      have seven letters. */
  lemma FrenchEarlyRulesMiss(s: string)
    requires 'c' !in s && 'n' !in s && |s| != 7
    ensures forall j :: 0 <= j < 5 ==> !RuleMatches(FrenchTable()[j], s)
  {
    var t := FrenchTable();
    MissingCharRulesOut(s, "communication", 0);
    MissingCharRulesOut(s, "engine", 1);
    MissingCharRulesOut(s, "navi", 0);
    forall j | 0 <= j < 5 ensures !RuleMatches(t[j], s) {
      SingleTestRule(t[j], s);
      var test := t[j].tests[0];
      if test.Is? && EqualsIgnoreCase(s, test.key) {
        IsNeedsLength(s, test.key);
      }
    }
  }

  /** A French name that mentions a missile and escapes the five earlier
      rules is called "lanceur de missiles". */
  lemma FrenchMissileLauncher(s: string)
    requires Contains(s, "missile")
    requires 'c' !in s && 'n' !in s && |s| != 7
    ensures TruncateSubsysName(French, s) == "lanceur de missiles"
  {
    FrenchMissileRuleFirst(s);
    FrenchMissileRuleDecides(s);
  }

  /** Such a name matches the missile rule and none before it. */
  lemma FrenchMissileRuleFirst(s: string)
    requires Contains(s, "missile")
    requires 'c' !in s && 'n' !in s && |s| != 7
    ensures RuleMatches(FrenchTable()[5], s)
    ensures forall j :: 0 <= j < 5 ==> !RuleMatches(FrenchTable()[j], s)
  {
    SingleTestRule(FrenchTable()[5], s);
    FrenchEarlyRulesMiss(s);
  }

  /** The missile rule decides once it matches and the five rules before it
      do not. */
  lemma FrenchMissileRuleDecides(s: string)
    requires RuleMatches(FrenchTable()[5], s)
    requires forall j :: 0 <= j < 5 ==> !RuleMatches(FrenchTable()[j], s)
    ensures TruncateSubsysName(French, s) == "lanceur de missiles"
  {
    RewriteTakesFirstMatch(FrenchTable(), s, 5);
  }

  /** For instance "missile turret" becomes "lanceur de missiles". */
  lemma FrenchMissileTurret(s: string)
    requires s == "missile turret"
    ensures TruncateSubsysName(French, s) == "lanceur de missiles"
  {
    MissileTurretShape(s);
    FrenchMissileLauncher(s);
  }

  lemma MissileTurretShape(s: string)
    requires s == "missile turret"
    ensures Contains(s, "missile") && 'c' !in s && 'n' !in s && |s| == 14
  {
    assert "missile" <= s;
  }

  // ---------------------------------------------------------------------
  // Names split into lines at '|'
  // ---------------------------------------------------------------------

  /** `strpbrk(s + from, "|")`: the index of the first bar at or after
      `from`, or `|s|` (the null result) when there is none. */
  function FindBar(s: string, from: nat): (i: nat)
    requires from <= |s|
    ensures from <= i <= |s|
    ensures i < |s| ==> s[i] == '|'
    ensures forall j :: from <= j < i ==> s[j] != '|'
    decreases |s| - from
  {
    if from == |s| then |s|
    else if s[from] == '|' then from
    else FindBar(s, from + 1)
  }

  /** A stretch without bars adds no bars to the count of a prefix. */
  lemma {:induction false} NoBarsBetween(s: string, a: nat, b: nat)
    requires a <= b <= |s|
    requires forall j :: a <= j < b ==> s[j] != '|'
    ensures multiset(s[..b])['|'] == multiset(s[..a])['|']
    decreases b - a
  {
    if a < b {
      NoBarsBetween(s, a, b - 1);
      assert s[..b] == s[..b - 1] + [s[b - 1]];
    }
  }

  /** The counting loop: `strpbrk` from just past each bar found, one count
      per hit.  The count is the number of bars in the name. */
  method CountLinebreaks(s: string) returns (n: nat)
    ensures n == multiset(s)['|']
  {
    n := 0;
    var p := FindBar(s, 0);
    NoBarsBetween(s, 0, p);
    while p < |s|
      invariant p <= |s|
      invariant p < |s| ==> s[p] == '|'
      invariant n == multiset(s[..p])['|']
      decreases |s| - p
    {
      n := n + 1;
      assert s[..p + 1] == s[..p] + [s[p]];
      var next := FindBar(s, p + 1);
      NoBarsBetween(s, p + 1, next);
      p := next;
    }
    assert s[..p] == s;
  }

  /** The pieces of `s` between separators, empty pieces included. */
  function SplitOn(s: string, sep: char): (parts: seq<string>)
    ensures |parts| >= 1
    ensures forall p | p in parts :: sep !in p
    decreases |s|
  {
    if s == [] then [[]]
    else
      var rest := SplitOn(s[1..], sep);
      if s[0] == sep then [[]] + rest
      else [[s[0]] + rest[0]] + rest[1..]
  }

  /** There is one piece more than there are separators. */
  lemma {:induction false} SplitOnCount(s: string, sep: char)
    ensures |SplitOn(s, sep)| == multiset(s)[sep] + 1
    decreases |s|
  {
    if s != [] {
      assert s == [s[0]] + s[1..];
      SplitOnCount(s[1..], sep);
    }
  }

  /** The pieces glued back together with the separator between them. */
  function Join(parts: seq<string>, sep: char): string
    requires |parts| >= 1
  {
    if |parts| == 1 then parts[0] else parts[0] + [sep] + Join(parts[1..], sep)
  }

  /** A leading non-separator joins the first piece. */
  lemma SplitCons(c: char, t: string, sep: char)
    requires c != sep
    ensures SplitOn([c] + t, sep) == [[c] + SplitOn(t, sep)[0]] + SplitOn(t, sep)[1..]
  {
    assert ([c] + t)[0] == c && ([c] + t)[1..] == t;
  }

  /** Growing the first piece grows the joined text at its front. */
  lemma JoinPrepend(c: char, r: seq<string>, sep: char)
    requires |r| >= 1
    ensures Join([[c] + r[0]] + r[1..], sep) == [c] + Join(r, sep)
  {
    var parts := [[c] + r[0]] + r[1..];
    if |r| > 1 {
      assert parts[1..] == r[1..];
    }
  }

  /** Splitting loses nothing: joining the pieces gives the name back. */
  lemma {:induction false} JoinSplit(s: string, sep: char)
    ensures Join(SplitOn(s, sep), sep) == s
    decreases |s|
  {
    if s != [] {
      var c, t := s[0], s[1..];
      assert s == [c] + t;
      JoinSplit(t, sep);
      var r := SplitOn(t, sep);
      if c == sep {
        assert SplitOn(s, sep) == [[]] + r;
      } else {
        SplitCons(c, t, sep);
        JoinPrepend(c, r, sep);
      }
    }
  }

  /** A name without the separator is a single piece. */
  lemma NoSeparatorOnePiece(s: string, sep: char)
    requires sep !in s
    ensures SplitOn(s, sep) == [s]
  {
    JoinSplit(s, sep);
    SplitOnCount(s, sep);
    assert multiset(s)[sep] == 0;
  }

  /** The non-empty pieces, in order. */
  function NonEmpty(parts: seq<string>): (r: seq<string>)
    ensures |r| <= |parts|
    ensures forall k :: 0 <= k < |r| ==> r[k] != []
  {
    if parts == [] then []
    else if parts[0] == [] then NonEmpty(parts[1..])
    else [parts[0]] + NonEmpty(parts[1..])
  }

  /** Only pieces that were there are kept. */
  lemma {:induction false} NonEmptyKeepsPieces(parts: seq<string>)
    ensures forall x :: x in NonEmpty(parts) ==> x in parts
  {
    if parts != [] {
      NonEmptyKeepsPieces(parts[1..]);
    }
  }

  lemma {:induction false} NonEmptyConcat(a: seq<string>, b: seq<string>)
    ensures NonEmpty(a + b) == NonEmpty(a) + NonEmpty(b)
  {
    if a == [] {
      assert a + b == b;
    } else {
      var ab := a + b;
      assert ab[0] == a[0] && ab[1..] == a[1..] + b;
      NonEmptyConcat(a[1..], b);
      if a[0] != [] {
        var x, y := NonEmpty(a[1..]), NonEmpty(b);
        assert [a[0]] + x + y == [a[0]] + (x + y);
      }
    }
  }

  /** What successive `strtok(…, "|")` calls return: the non-empty pieces
      between bars (runs of bars, and bars at either end, yield nothing). */
  function Tokens(s: string): (t: seq<string>)
    ensures |t| <= multiset(s)['|'] + 1
    ensures forall k :: 0 <= k < |t| ==> t[k] != [] && '|' !in t[k]
  {
    SplitOnCount(s, '|');
    NonEmptyKeepsPieces(SplitOn(s, '|'));
    NonEmpty(SplitOn(s, '|'))
  }

  /** All the characters of the pieces, in order. */
  function Concat(parts: seq<string>): string
  {
    if parts == [] then [] else parts[0] + Concat(parts[1..])
  }

  /** The name with every bar removed. */
  function Strip(s: string): (r: string)
    ensures '|' !in r
  {
    if s == [] then []
    else if s[0] == '|' then Strip(s[1..])
    else [s[0]] + Strip(s[1..])
  }

  lemma {:induction false} ConcatNonEmpty(parts: seq<string>)
    ensures Concat(NonEmpty(parts)) == Concat(parts)
  {
    if parts != [] {
      ConcatNonEmpty(parts[1..]);
    }
  }

  lemma {:induction false} ConcatSplit(s: string)
    ensures Concat(SplitOn(s, '|')) == Strip(s)
    decreases |s|
  {
    if s != [] {
      ConcatSplit(s[1..]);
      var rest := SplitOn(s[1..], '|');
      if s[0] != '|' {
        assert Concat(rest) == rest[0] + Concat(rest[1..]);
      }
    }
  }

  /** The lines shown are exactly the characters of the name other than the
      bars: no character is lost, duplicated or reordered. */
  lemma TokensKeepEveryCharacter(s: string)
    ensures Concat(Tokens(s)) == Strip(s)
  {
    ConcatNonEmpty(SplitOn(s, '|'));
    ConcatSplit(s);
  }

  /** A piece without bars glues onto the first piece of what follows. */
  lemma {:induction false} SplitPrefix(cur: string, rest: string)
    requires '|' !in cur
    ensures SplitOn(cur + rest, '|') == [cur + SplitOn(rest, '|')[0]] + SplitOn(rest, '|')[1..]
    decreases |cur|
  {
    var p := SplitOn(rest, '|');
    if cur == [] {
      assert cur + rest == rest && cur + p[0] == p[0];
      assert p == [p[0]] + p[1..];
    } else {
      var c, t := cur[0], cur[1..] + rest;
      assert c in cur;
      assert cur + rest == [c] + t;
      SplitCons(c, t, '|');
      SplitPrefix(cur[1..], rest);
      assert [c] + (cur[1..] + p[0]) == cur + p[0];
    }
  }

  /** A leading bar yields no token. */
  lemma LeadingBarSkipped(rest: string)
    requires rest != [] && rest[0] == '|'
    ensures Tokens(rest) == Tokens(rest[1..])
  {
  }

  /** A non-empty run of non-bars up to a bar (or the end) is the next token. */
  lemma TokenThenRest(cur: string, rest: string)
    requires cur != [] && '|' !in cur
    requires rest == [] || rest[0] == '|'
    ensures Tokens(cur + rest) == [cur] + Tokens(rest)
  {
    SplitPrefix(cur, rest);
    var parts := SplitOn(rest, '|');
    assert parts[0] == [];
    var whole := SplitOn(cur + rest, '|');
    assert cur + parts[0] == cur;
    assert whole == [cur] + parts[1..];
    NonEmptyConcat([cur], parts[1..]);
    NonEmptyConcat([[]], parts[1..]);
    assert parts == [[]] + parts[1..];
  }

  /** The `strtok` loop: skip bars, take the run up to the next bar as a
      line, and lift each line by the number of bars still to come, which
      starts at the bar count and drops by one per line. */
  method SplitLines(s: string, breaks: nat) returns (lines: seq<string>, lifts: seq<int>)
    ensures lines == Tokens(s)
    ensures |lifts| == |lines|
    ensures forall k :: 0 <= k < |lifts| ==> lifts[k] == breaks - k
  {
    lines, lifts := [], [];
    var p := 0;
    while p < |s|
      invariant 0 <= p <= |s|
      invariant lines + Tokens(s[p..]) == Tokens(s)
      invariant |lifts| == |lines|
      invariant forall k :: 0 <= k < |lifts| ==> lifts[k] == breaks - k
      decreases |s| - p
    {
      if s[p] == '|' {
        LeadingBarSkipped(s[p..]);
        assert s[p..][1..] == s[p + 1..];
        p := p + 1;
      } else {
        var e := FindBar(s, p);
        assert s[p..] == s[p..e] + s[e..];
        TokenThenRest(s[p..e], s[e..]);
        lines, lifts := lines + [s[p..e]], lifts + [breaks - |lifts|];
        p := e;
      }
    }
  }

  /** The subsystem name as the target box lays it out: with bars, one line
      per token, lifted by the bars still to come; without, one line holding
      the abbreviated name. */
  method SubsysNameLines(b: Branch, name: string) returns (breaks: nat, lines: seq<string>, lifts: seq<int>)
    ensures breaks == multiset(name)['|']
    ensures |lifts| == |lines|
    ensures breaks > 0 ==> lines == Tokens(name) && forall k :: 0 <= k < |lifts| ==> lifts[k] == breaks - k
    ensures breaks == 0 ==> lines == [TruncateSubsysName(b, name)] && lifts == [0]
    ensures forall k :: 0 <= k < |lifts| ==> 0 <= lifts[k] <= breaks
  {
    breaks := CountLinebreaks(name);
    if breaks > 0 {
      lines, lifts := SplitLines(name, breaks);
    } else {
      lines, lifts := [TruncateSubsysName(b, name)], [0];
    }
  }
}
