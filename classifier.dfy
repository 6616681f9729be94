/**
 * The keyword classifier of the donation backend: a free-text note is mapped
 * to one of six fixed category labels by case-insensitive substring search,
 * the rules being tried in a fixed priority order.
 */
module Classifier {

  import opened Wrappers

  // ---------- lower-casing ----------

  /** ASCII lower-casing of one character; every other character is kept. */
  function LowerChar(c: char): (r: char)
    ensures !('A' <= r <= 'Z')
    ensures 'A' <= c <= 'Z' ==> 'a' <= r <= 'z' && r as int - c as int == 'a' as int - 'A' as int
    ensures !('A' <= c <= 'Z') ==> r == c
  {
    if 'A' <= c <= 'Z' then (c as int - 'A' as int + 'a' as int) as char else c
  }

  /** The note with every ASCII upper-case letter lowered. */
  function Lower(s: string): (r: string)
    ensures |r| == |s|
    ensures forall i :: 0 <= i < |s| ==> r[i] == LowerChar(s[i])
  {
    if s == [] then [] else [LowerChar(s[0])] + Lower(s[1..])
  }

  /** Lowering twice is lowering once. */
  lemma LowerIdempotent(s: string)
    ensures Lower(Lower(s)) == Lower(s)
  {
    assert forall i :: 0 <= i < |s| ==> Lower(Lower(s))[i] == Lower(s)[i];
  }

  // ---------- substring search ----------

  /** `sub` occurs in `s` starting at position `i`. */
  ghost predicate OccursAt(s: string, sub: string, i: int)
  {
    0 <= i && i + |sub| <= |s| && s[i..i + |sub|] == sub
  }

  /** Substring search, scanning the candidate start positions left to right. */
  function Includes(s: string, sub: string): (b: bool)
    ensures sub <= s ==> b
    decreases |s|
  {
    if sub <= s then true
    else if s == [] then false
    else Includes(s[1..], sub)
  }

  lemma PrefixIsOccurrenceAtZero(s: string, sub: string)
    ensures OccursAt(s, sub, 0) <==> sub <= s
  {
    if sub <= s {
      assert s[..|sub|] == sub;
    }
  }

  /** Dropping the first character shifts every occurrence one place to the left. */
  lemma OccursShift(s: string, sub: string, i: nat)
    requires s != []
    ensures OccursAt(s[1..], sub, i) <==> OccursAt(s, sub, i + 1)
  {
    if i + |sub| <= |s[1..]| {
      assert s[1..][i..i + |sub|] == s[i + 1..i + 1 + |sub|];
    }
  }

  /** The scan finds `sub` exactly when `sub` occurs somewhere in `s`. */
  lemma {:induction false} IncludesIffOccurs(s: string, sub: string)
    ensures Includes(s, sub) <==> exists i :: OccursAt(s, sub, i)
    decreases |s|
  {
    PrefixIsOccurrenceAtZero(s, sub);
    if sub <= s {
      assert OccursAt(s, sub, 0);
    } else if s != [] {
      IncludesIffOccurs(s[1..], sub);
      forall i | OccursAt(s[1..], sub, i)
        ensures OccursAt(s, sub, i + 1)
      {
        OccursShift(s, sub, i);
      }
      forall i | OccursAt(s, sub, i)
        ensures OccursAt(s[1..], sub, i - 1)
      {
        OccursShift(s, sub, i - 1);
      }
    }
  }

  /** An occurrence inside a larger text is found: matching is by substring, not by word. */
  lemma IncludesInside(pre: string, sub: string, post: string)
    ensures Includes(pre + sub + post, sub)
  {
    var s := pre + sub + post;
    assert s[|pre|..|pre| + |sub|] == sub;
    assert OccursAt(s, sub, |pre|);
    IncludesIffOccurs(s, sub);
  }

  // ---------- the classifier ----------

  const General: string := "General"

  /** One rule: the label it yields and the keywords that trigger it. */
  datatype Rule = Rule(category: string, keywords: seq<string>)

  /** The rules, in the order in which they are tried. */
  const Rules: seq<Rule> := [
    Rule("Food", ["food", "ration", "grocery"]),
    Rule("Education", ["school", "fees", "education", "study"]),
    Rule("Medical", ["hospital", "medicine", "medical", "treatment"]),
    Rule("Orphans / Widows", ["orphan", "widow", "yateem"]),
    Rule("Ramzan / Fitra", ["ramzan", "fitra", "eid"])
  ]

  /** The six labels the classifier can return. */
  const Labels: set<string> :=
    {"Food", "Education", "Medical", "Orphans / Widows", "Ramzan / Fitra", "General"}

  /**
   * The classifier as the backend writes it: a missing or empty note is "General";
   * otherwise the lowered note is tested against each keyword group in turn.
   */
  function ClassifyCategory(noteRaw: Option<string>): (r: string)
    ensures r in Labels
    ensures noteRaw == None || noteRaw == Some([]) ==> r == General
  {
    if noteRaw == None || noteRaw == Some([]) then General
    else
      var note := Lower(noteRaw.value);
      if Includes(note, "food") || Includes(note, "ration") || Includes(note, "grocery") then
        "Food"
      else if Includes(note, "school") || Includes(note, "fees") || Includes(note, "education")
        || Includes(note, "study") then
        "Education"
      else if Includes(note, "hospital") || Includes(note, "medicine") || Includes(note, "medical")
        || Includes(note, "treatment") then
        "Medical"
      else if Includes(note, "orphan") || Includes(note, "widow") || Includes(note, "yateem") then
        "Orphans / Widows"
      else if Includes(note, "ramzan") || Includes(note, "fitra") || Includes(note, "eid") then
        "Ramzan / Fitra"
      else
        General
  }

  // ---------- the reference definition: first matching rule wins ----------

  /** Some keyword of `rule` occurs in `note`. */
  predicate Matches(rule: Rule, note: string)
  {
    exists w :: w in rule.keywords && Includes(note, w)
  }

  /** Rule `k` is the first of `rules` that matches `note`. */
  ghost predicate IsFirstMatch(rules: seq<Rule>, note: string, k: int)
  {
    0 <= k < |rules| && Matches(rules[k], note)
    && forall j :: 0 <= j < k ==> !Matches(rules[j], note)
  }

  /** The label of the first rule that matches, or "General" when none does. */
  function FirstMatch(rules: seq<Rule>, note: string): string
  {
    if rules == [] then General
    else if Matches(rules[0], note) then rules[0].category
    else FirstMatch(rules[1..], note)
  }

  /** `FirstMatch` returns the label of the earliest matching rule, or "General" when none matches. */
  lemma {:induction false} FirstMatchSpec(rules: seq<Rule>, note: string)
    ensures (exists k :: IsFirstMatch(rules, note, k) && FirstMatch(rules, note) == rules[k].category)
      || ((forall k :: 0 <= k < |rules| ==> !Matches(rules[k], note))
          && FirstMatch(rules, note) == General)
  {
    if rules != [] && !Matches(rules[0], note) {
      FirstMatchSpec(rules[1..], note);
      if k :| IsFirstMatch(rules[1..], note, k) && FirstMatch(rules[1..], note) == rules[1..][k].category {
        assert IsFirstMatch(rules, note, k + 1);
      } else {
        forall k | 0 <= k < |rules| ensures !Matches(rules[k], note) {
          if k > 0 {
            assert rules[k] == rules[1..][k - 1];
          }
        }
      }
    } else if rules != [] {
      assert IsFirstMatch(rules, note, 0);
    }
  }

  /** A rule with three keywords matches when one of the three occurs. */
  lemma MatchesThree(rule: Rule, note: string, a: string, b: string, c: string)
    requires rule.keywords == [a, b, c]
    ensures Matches(rule, note) <==> Includes(note, a) || Includes(note, b) || Includes(note, c)
  {
    assert a in rule.keywords && b in rule.keywords && c in rule.keywords;
  }

  /** A rule with four keywords matches when one of the four occurs. */
  lemma MatchesFour(rule: Rule, note: string, a: string, b: string, c: string, d: string)
    requires rule.keywords == [a, b, c, d]
    ensures Matches(rule, note) <==>
      Includes(note, a) || Includes(note, b) || Includes(note, c) || Includes(note, d)
  {
    assert a in rule.keywords && b in rule.keywords && c in rule.keywords && d in rule.keywords;
  }

  /** Each rule of the table matches exactly when the corresponding test of the if-chain holds. */
  lemma RulesMatchKeywordTests(note: string)
    ensures Matches(Rules[0], note) <==>
      Includes(note, "food") || Includes(note, "ration") || Includes(note, "grocery")
    ensures Matches(Rules[1], note) <==>
      Includes(note, "school") || Includes(note, "fees") || Includes(note, "education")
      || Includes(note, "study")
    ensures Matches(Rules[2], note) <==>
      Includes(note, "hospital") || Includes(note, "medicine") || Includes(note, "medical")
      || Includes(note, "treatment")
    ensures Matches(Rules[3], note) <==>
      Includes(note, "orphan") || Includes(note, "widow") || Includes(note, "yateem")
    ensures Matches(Rules[4], note) <==>
      Includes(note, "ramzan") || Includes(note, "fitra") || Includes(note, "eid")
  {
    MatchesThree(Rules[0], note, "food", "ration", "grocery");
    MatchesFour(Rules[1], note, "school", "fees", "education", "study");
    MatchesFour(Rules[2], note, "hospital", "medicine", "medical", "treatment");
    MatchesThree(Rules[3], note, "orphan", "widow", "yateem");
    MatchesThree(Rules[4], note, "ramzan", "fitra", "eid");
  }

  /** No keyword occurs in the empty note. */
  lemma NothingMatchesEmpty()
    ensures forall k :: 0 <= k < |Rules| ==> !Matches(Rules[k], [])
  {
    forall k, w | 0 <= k < |Rules| && w in Rules[k].keywords
      ensures !Includes([], w)
    {
      assert |w| > 0;
    }
  }

  /** The category labels of the rules differ from each other and from "General". */
  lemma CategoriesDistinct()
    ensures forall k :: 0 <= k < |Rules| ==> Rules[k].category != General
    ensures forall i, j :: 0 <= i < j < |Rules| ==> Rules[i].category != Rules[j].category
  {
  }

  /** `FirstMatch` over five rules, unrolled. */
  lemma FirstMatchOfFive(rules: seq<Rule>, note: string)
    requires |rules| == 5
    ensures FirstMatch(rules, note) ==
      if Matches(rules[0], note) then rules[0].category
      else if Matches(rules[1], note) then rules[1].category
      else if Matches(rules[2], note) then rules[2].category
      else if Matches(rules[3], note) then rules[3].category
      else if Matches(rules[4], note) then rules[4].category
      else General
  {
    var r1 := rules[1..];
    var r2 := r1[1..];
    var r3 := r2[1..];
    var r4 := r3[1..];
    assert r1[0] == rules[1] && r2[0] == rules[2] && r3[0] == rules[3] && r4[0] == rules[4];
    assert r4[1..] == [];
    assert FirstMatch(r4, note) == if Matches(rules[4], note) then rules[4].category else General;
    assert FirstMatch(r3, note) ==
      if Matches(rules[3], note) then rules[3].category else FirstMatch(r4, note);
    assert FirstMatch(r2, note) ==
      if Matches(rules[2], note) then rules[2].category else FirstMatch(r3, note);
    assert FirstMatch(r1, note) ==
      if Matches(rules[1], note) then rules[1].category else FirstMatch(r2, note);
  }

  /** The if-chain is the rule table tried in order on the lowered note. */
  lemma ClassifyIsFirstMatch(s: string)
    ensures ClassifyCategory(Some(s)) == FirstMatch(Rules, Lower(s))
  {
    RulesMatchKeywordTests(Lower(s));
    FirstMatchOfFive(Rules, Lower(s));
    if s == [] {
      NothingMatchesEmpty();
    }
  }

  // ---------- properties of the classifier ----------

  /** Classification ignores ASCII case. */
  lemma ClassifyCaseInsensitive(s: string)
    ensures ClassifyCategory(Some(Lower(s))) == ClassifyCategory(Some(s))
  {
    ClassifyIsFirstMatch(s);
    ClassifyIsFirstMatch(Lower(s));
    LowerIdempotent(s);
  }

  /** A rule's label is returned exactly when that rule matches and no earlier rule does. */
  lemma ClassifyPicksFirstMatchingRule(s: string, k: nat)
    requires k < |Rules|
    ensures ClassifyCategory(Some(s)) == Rules[k].category <==> IsFirstMatch(Rules, Lower(s), k)
  {
    ClassifyIsFirstMatch(s);
    CategoriesDistinct();
    FirstMatchPicks(Rules, Lower(s), k);
  }

  /** A matching rule beats every later rule. */
  lemma ClassifyPriority(s: string, k: nat, j: nat)
    requires k < j < |Rules|
    requires Matches(Rules[k], Lower(s))
    ensures ClassifyCategory(Some(s)) != Rules[j].category
  {
    ClassifyPicksFirstMatchingRule(s, j);
  }

  /** With distinct labels, `FirstMatch` yields rule `k`'s label exactly when rule `k` is the first match. */
  lemma FirstMatchPicks(rules: seq<Rule>, note: string, k: nat)
    requires k < |rules|
    requires forall k :: 0 <= k < |rules| ==> rules[k].category != General
    requires forall i, j :: 0 <= i < j < |rules| ==> rules[i].category != rules[j].category
    ensures FirstMatch(rules, note) == rules[k].category <==> IsFirstMatch(rules, note, k)
  {
    FirstMatchSpec(rules, note);
    if m :| IsFirstMatch(rules, note, m) && FirstMatch(rules, note) == rules[m].category {
      if IsFirstMatch(rules, note, k) {
        assert !(m < k) && !(k < m);
      }
    }
  }

  /** None of the keywords of `rules` occurs in `note`. */
  ghost predicate NoKeywordOccurs(rules: seq<Rule>, note: string)
  {
    forall k, w :: 0 <= k < |rules| && w in rules[k].keywords ==> !Includes(note, w)
  }

  /** With no rule labelled "General", `FirstMatch` yields "General" exactly when no keyword occurs. */
  lemma FirstMatchGeneralIff(rules: seq<Rule>, note: string)
    requires forall k :: 0 <= k < |rules| ==> rules[k].category != General
    ensures FirstMatch(rules, note) == General <==> NoKeywordOccurs(rules, note)
  {
    FirstMatchSpec(rules, note);
    if k :| IsFirstMatch(rules, note, k) && FirstMatch(rules, note) == rules[k].category {
      var w :| w in rules[k].keywords && Includes(note, w);
      assert !NoKeywordOccurs(rules, note);
    } else {
      forall k, w | 0 <= k < |rules| && w in rules[k].keywords
        ensures !Includes(note, w)
      {
        assert !Matches(rules[k], note);
      }
    }
  }

  /** "General" is returned exactly when none of the 17 keywords occurs in the lowered note. */
  lemma ClassifyGeneralIff(s: string)
    ensures ClassifyCategory(Some(s)) == General <==> NoKeywordOccurs(Rules, Lower(s))
  {
    ClassifyIsFirstMatch(s);
    CategoriesDistinct();
    FirstMatchGeneralIff(Rules, Lower(s));
  }

  /** A keyword of rule `k`, in any case and anywhere in the note, makes rule `k` match. */
  lemma KeywordAnywhereMatches(pre: string, w: string, post: string, k: nat)
    requires k < |Rules| && Lower(w) in Rules[k].keywords
    ensures Matches(Rules[k], Lower(pre + w + post))
  {
    LowerOfConcat(pre, w, post);
    IncludesInside(Lower(pre), Lower(w), Lower(post));
  }

  /** A note with a Food keyword anywhere is "Food", whatever else it mentions. */
  lemma FoodKeywordWins(pre: string, w: string, post: string)
    requires Lower(w) in Rules[0].keywords
    ensures ClassifyCategory(Some(pre + w + post)) == "Food"
  {
    KeywordAnywhereMatches(pre, w, post, 0);
    ClassifyPicksFirstMatchingRule(pre + w + post, 0);
  }

  /** A note without upper-case ASCII letters is its own lowering. */
  lemma LowerKeepsLowercase(s: string)
    requires forall i :: 0 <= i < |s| ==> !('A' <= s[i] <= 'Z')
    ensures Lower(s) == s
  {
  }

  /** Every keyword is written in lower case, so it is found in the lowered note as it stands. */
  lemma KeywordsAreLowercase()
    ensures forall k, w :: 0 <= k < |Rules| && w in Rules[k].keywords ==> Lower(w) == w
  {
    forall k, w | 0 <= k < |Rules| && w in Rules[k].keywords
      ensures Lower(w) == w
    {
      LowerKeepsLowercase(w);
    }
  }

  /** A keyword of rule `k` anywhere in the note, exactly as listed, makes rule `k` match. */
  lemma KeywordMatches(pre: string, w: string, post: string, k: nat)
    requires k < |Rules| && w in Rules[k].keywords
    ensures Matches(Rules[k], Lower(pre + w + post))
  {
    KeywordsAreLowercase();
    KeywordAnywhereMatches(pre, w, post, k);
  }

  lemma LowerOfConcat(a: string, b: string, c: string)
    ensures Lower(a + b + c) == Lower(a) + Lower(b) + Lower(c)
  {
    assert forall i :: 0 <= i < |a + b + c| ==>
      Lower(a + b + c)[i] == (Lower(a) + Lower(b) + Lower(c))[i];
  }
}
