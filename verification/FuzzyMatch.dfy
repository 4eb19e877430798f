/**
The project list of the open-workspace prompt: which configured projects match
what was typed, and in which order.
*/
module FuzzyMatch {
  import opened Primitives
  import opened UnicodeText

  // ---- subsequences ---------------------------------------------------------

  /** `ps` places the characters of `term` from its `i`-th on in `name`, left to right, none before `from`. */
  predicate Places(ps: seq<nat>, term: string, i: nat, name: string, from: nat) {
    && i <= |term| && |ps| == |term| - i
    && (forall k :: 0 <= k < |ps| ==> from <= ps[k] < |name| && name[ps[k]] == term[i + k])
    && (forall k, l :: 0 <= k < l < |ps| ==> ps[k] < ps[l])
  }

  predicate Embeds(ps: seq<nat>, term: string, name: string) {
    Places(ps, term, 0, name, 0)
  }

  ghost predicate IsSubsequence(term: string, name: string) {
    exists ps :: Embeds(ps, term, name)
  }

  function FirstAt(name: string, c: char, from: nat): (p: nat)
    requires from <= |name|
    ensures from <= p <= |name|
    ensures p < |name| ==> name[p] == c
    ensures forall k :: from <= k < p ==> name[k] != c
    decreases |name| - from
  {
    if from == |name| || name[from] == c then from else FirstAt(name, c, from + 1)
  }

  /** The greedy choice: each character from the `i`-th on at its first place after the one before. */
  function LeftmostFrom(name: string, term: string, i: nat, from: nat): Option<seq<nat>>
    requires i <= |term| && from <= |name|
    decreases |term| - i
  {
    if i == |term| then Some([])
    else
      var p := FirstAt(name, term[i], from);
      if p == |name| then None else Prepend([p], LeftmostFrom(name, term, i + 1, p + 1))
  }

  function Leftmost(name: string, term: string): Option<seq<nat>> {
    LeftmostFrom(name, term, 0, 0)
  }

  lemma {:induction false} LeftmostPlaces(name: string, term: string, i: nat, from: nat)
    requires i <= |term| && from <= |name| && LeftmostFrom(name, term, i, from).Some?
    ensures Places(LeftmostFrom(name, term, i, from).value, term, i, name, from)
    decreases |term| - i
  {
    if i < |term| {
      var p := FirstAt(name, term[i], from);
      LeftmostPlaces(name, term, i + 1, p + 1);
      PlacesCons(p, LeftmostFrom(name, term, i + 1, p + 1).value, term, i, name, from);
    }
  }

  lemma PlacesCons(p: nat, rest: seq<nat>, term: string, i: nat, name: string, from: nat)
    requires i < |term| && from <= p < |name| && name[p] == term[i]
    requires Places(rest, term, i + 1, name, p + 1)
    ensures Places([p] + rest, term, i, name, from)
  {
    var ps := [p] + rest;
    forall k | 0 <= k < |ps| ensures from <= ps[k] < |name| && name[ps[k]] == term[i + k] {
      if k > 0 { assert ps[k] == rest[k - 1]; }
    }
  }

  /** Any placement at all is matched by the greedy one, no character of which is further right. */
  lemma {:induction false} GreedyLosesNothing(name: string, term: string, i: nat, from: nat, ps: seq<nat>)
    requires from <= |name| && Places(ps, term, i, name, from)
    ensures LeftmostFrom(name, term, i, from).Some?
    ensures |LeftmostFrom(name, term, i, from).value| == |ps|
    ensures forall k :: 0 <= k < |ps| ==> LeftmostFrom(name, term, i, from).value[k] <= ps[k]
    decreases |term| - i
  {
    if i < |term| {
      var p := FirstAt(name, term[i], from);
      assert p <= ps[0];
      PlacesTail(ps, term, i, name, from, p + 1);
      GreedyLosesNothing(name, term, i + 1, p + 1, ps[1..]);
      var rest := LeftmostFrom(name, term, i + 1, p + 1).value;
      forall k | 0 <= k < |ps| ensures ([p] + rest)[k] <= ps[k] {
        if k > 0 { assert rest[k - 1] <= ps[1..][k - 1]; }
      }
    }
  }

  lemma PlacesTail(ps: seq<nat>, term: string, i: nat, name: string, from: nat, after: nat)
    requires i < |term| && Places(ps, term, i, name, from) && after <= ps[0] + 1
    ensures Places(ps[1..], term, i + 1, name, after)
  {
    var rest := ps[1..];
    forall k | 0 <= k < |rest| ensures after <= rest[k] < |name| && name[rest[k]] == term[i + 1 + k] {
      assert rest[k] == ps[k + 1] && ps[0] < ps[k + 1];
    }
  }

  // ---- scores ---------------------------------------------------------------

  predicate IsNameBoundary(c: char) {
    c == '-' || c == '_' || c == ' ' || c == '/' || c == '.'
  }

  /** The bytes of a character in UTF-8. */
  function Utf8Width(c: char): nat {
    if c as int < 0x80 then 1 else if c as int < 0x800 then 2 else if c as int < 0x1_0000 then 3 else 4
  }

  function Utf8Length(s: string): (n: nat)
    ensures n >= |s|
  {
    if s == "" then 0 else Utf8Width(s[0]) + Utf8Length(s[1..])
  }

  ghost predicate Contains(name: string, term: string) {
    exists i :: 0 <= i <= |name| - |term| && name[i..][..|term|] == term
  }

  function ContainsFrom(name: string, term: string): (found: bool)
    ensures found <==> Contains(name, term)
  {
    if term <= name then
      assert name[0..][..|term|] == term;
      true
    else if name == "" then false
    else
      assert Contains(name, term) <==> Contains(name[1..], term) by { ContainsTail(name, term); }
      ContainsFrom(name[1..], term)
  }

  lemma ContainsTail(name: string, term: string)
    requires name != "" && !(term <= name)
    ensures Contains(name, term) <==> Contains(name[1..], term)
  {
    if Contains(name, term) {
      var i :| 0 <= i <= |name| - |term| && name[i..][..|term|] == term;
      assert name[0..] == name;
      assert name[1..][i - 1..] == name[i..];
    }
    if Contains(name[1..], term) {
      var i :| 0 <= i <= |name[1..]| - |term| && name[1..][i..][..|term|] == term;
      assert name[1..][i..] == name[i + 1..];
    }
  }

  /** What a matched character earns by where it stands. */
  function PlaceBonus(name: string, p: nat): int
    requires p < |name|
  {
    10 + if p == 0 then 8 else if IsNameBoundary(name[p - 1]) then 6 else 0
  }

  /** What it earns, or loses, by how far it is from the match before. */
  function StepBonus(previous: nat, p: nat): int {
    if p == previous + 1 then 5 else -Min(p - previous - 1, 8)
  }

  /** What the match at `p` earns, `last` being the match before it. */
  function Earned(name: string, p: nat, last: Option<nat>): int
    requires p < |name|
  {
    PlaceBonus(name, p) + if last.None? then 0 else StepBonus(last.value, p)
  }

  function LastOf(ps: seq<nat>): Option<nat> {
    if ps == [] then None else Some(ps[|ps| - 1])
  }

  function PlacesScore(name: string, ps: seq<nat>): int
    requires forall i :: 0 <= i < |ps| ==> ps[i] < |name|
  {
    if ps == [] then 0
    else
      var before := ps[..|ps| - 1];
      PlacesScore(name, before) + Earned(name, ps[|ps| - 1], LastOf(before))
  }

  /** Characters of the name left over, against the *bytes* of the term. */
  function LengthPenalty(name: string, term: string): int {
    Min(if |name| <= Utf8Length(term) then 0 else |name| - Utf8Length(term), 16)
  }

  /** The score of a term placed greedily; no score when it cannot be placed. */
  function TermScore(name: string, term: string): Option<int> {
    var ps := Leftmost(name, term);
    if term == "" then Some(0)
    else if ps.None? then None
    else
      assert Embeds(ps.value, term, name) by { LeftmostPlaces(name, term, 0, 0); }
      Some((if ContainsFrom(name, term) then 20 else 0) + PlacesScore(name, ps.value) - LengthPenalty(name, term))
  }

  /** A term scores exactly when its characters occur in the name in order. */
  lemma ScoresIffSubsequence(name: string, term: string)
    ensures TermScore(name, term).Some? <==> IsSubsequence(term, name)
  {
    if term == "" {
      assert Embeds([], term, name);
    } else if Leftmost(name, term).Some? {
      LeftmostPlaces(name, term, 0, 0);
      assert Embeds(Leftmost(name, term).value, term, name);
    } else if IsSubsequence(term, name) {
      var ps :| Embeds(ps, term, name);
      GreedyLosesNothing(name, term, 0, 0, ps);
    }
  }

  /** The loop's `matched` places followed by the greedy rest. */
  function Onward(matched: seq<nat>, rest: Option<seq<nat>>): Option<seq<nat>> {
    if rest.None? then None else Some(matched + rest.value)
  }

  lemma OnwardStep(matched: seq<nat>, p: nat, rest: Option<seq<nat>>)
    ensures Onward(matched, Prepend([p], rest)) == Onward(matched + [p], rest)
  {
    if rest.Some? { assert matched + ([p] + rest.value) == matched + [p] + rest.value; }
  }

  lemma PlacesSnoc(name: string, ps: seq<nat>, p: nat)
    requires p < |name| && forall i :: 0 <= i < |ps| ==> ps[i] < |name|
    ensures PlacesScore(name, ps + [p])
            == PlacesScore(name, ps) + Earned(name, p, LastOf(ps))
  {
    assert (ps + [p])[..|ps|] == ps;
  }

  /** Where the loop stands after `i` characters, put at `matched`. */
  predicate Placed(name: string, term: string, i: nat, matched: seq<nat>, position: nat, last: Option<nat>) {
    && i <= |term| && |matched| == i && position <= |name|
    && (forall k :: 0 <= k < i ==> matched[k] < position)
    && last == LastOf(matched)
    && Leftmost(name, term) == Onward(matched, LeftmostFrom(name, term, i, position))
  }

  lemma PlacedAtStart(name: string, term: string)
    ensures Placed(name, term, 0, [], 0, None)
  {
    var rest := Leftmost(name, term);
    if rest.Some? { assert [] + rest.value == rest.value; }
  }

  lemma PlacedStep(name: string, term: string, i: nat, matched: seq<nat>, position: nat, last: Option<nat>)
    requires i < |term| && Placed(name, term, i, matched, position, last)
    ensures var p := FirstAt(name, term[i], position);
            if p == |name| then Leftmost(name, term).None?
            else Placed(name, term, i + 1, matched + [p], p + 1, Some(p))
  {
    var p := FirstAt(name, term[i], position);
    if p < |name| {
      OnwardStep(matched, p, LeftmostFrom(name, term, i + 1, p + 1));
    }
  }

  /** The same, with what the matches have earned. */
  predicate Progress(name: string, term: string, i: nat, matched: seq<nat>, position: nat, last: Option<nat>,
                     earned: int)
  {
    Placed(name, term, i, matched, position, last) && earned == PlacesScore(name, matched)
  }

  lemma ProgressStep(name: string, term: string, i: nat, matched: seq<nat>, position: nat, last: Option<nat>,
                     earned: int)
    requires i < |term| && Progress(name, term, i, matched, position, last, earned)
    ensures var p := FirstAt(name, term[i], position);
            if p == |name| then Leftmost(name, term).None?
            else Progress(name, term, i + 1, matched + [p], p + 1, Some(p), earned + Earned(name, p, last))
  {
    var p := FirstAt(name, term[i], position);
    PlacedStep(name, term, i, matched, position, last);
    if p < |name| {
      PlacesSnoc(name, matched, p);
    }
  }

  lemma ScoreAtEnd(name: string, term: string, matched: seq<nat>, position: nat, last: Option<nat>, earned: int)
    requires term != "" && Progress(name, term, |term|, matched, position, last, earned)
    ensures TermScore(name, term)
            == Some((if ContainsFrom(name, term) then 20 else 0) + earned - LengthPenalty(name, term))
  {
    assert matched + [] == matched;
  }

  /** One turn of the matching loop: the character's place, and the score with what it earns there. */
  method MatchOne(name: string, term: string, i: nat, position: nat, last: Option<nat>, score: int,
                  ghost matched: seq<nat>, ghost earned: int)
    returns (place: nat, next: int)
    requires i < |term| && Progress(name, term, i, matched, position, last, earned)
    ensures place <= |name|
    ensures place == |name| ==> TermScore(name, term).None?
    ensures place < |name| ==>
              Progress(name, term, i + 1, matched + [place], place + 1, Some(place), earned + (next - score))
  {
    place := position;
    while place < |name| && name[place] != term[i]
      invariant position <= place <= |name|
      invariant FirstAt(name, term[i], position) == FirstAt(name, term[i], place)
    {
      place := place + 1;
    }
    ProgressStep(name, term, i, matched, position, last, earned);
    next := score;
    if place == |name| { return; }
    next := next + 10;
    if place == 0 {
      next := next + 8;
    } else if IsNameBoundary(name[place - 1]) {
      next := next + 6;
    }
    if last.Some? {
      if place == last.value + 1 {
        next := next + 5;
      } else {
        next := next - Min(place - last.value - 1, 8);
      }
    }
    assert next - score == Earned(name, place, last);
  }

  method FuzzyTermScore(name: string, term: string) returns (r: Option<int>)
    ensures r == TermScore(name, term)
  {
    if term == "" { return Some(0); }
    var start := if ContainsFrom(name, term) then 20 else 0;
    var score := start;
    var position: nat := 0;
    var last: Option<nat> := None;
    ghost var matched: seq<nat> := [];
    ghost var earned := 0;
    PlacedAtStart(name, term);
    for i := 0 to |term|
      invariant Progress(name, term, i, matched, position, last, earned)
      invariant score == start + earned
    {
      var place, next := MatchOne(name, term, i, position, last, score, matched, earned);
      if place == |name| { return None; }
      matched, earned := matched + [place], earned + (next - score);
      score, last, position := next, Some(place), place + 1;
    }
    ScoreAtEnd(name, term, matched, position, last, earned);
    score := score - LengthPenalty(name, term);
    return Some(score);
  }

  // ---- the best score -------------------------------------------------------

  function Identity(n: nat): (ps: seq<nat>)
    ensures |ps| == n && forall i :: 0 <= i < n ==> ps[i] == i
  {
    if n == 0 then [] else Identity(n - 1) + [n - 1]
  }

  /** A term placed in itself from the left stands where it stands. */
  lemma LeftmostOfItself(term: string)
    ensures Leftmost(term, term) == Some(Identity(|term|))
  {
    var id := Identity(|term|);
    assert Embeds(id, term, term);
    GreedyLosesNothing(term, term, 0, 0, id);
    LeftmostPlaces(term, term, 0, 0);
    OnlyIdentity(Leftmost(term, term).value, id);
  }

  lemma OnlyIdentity(ps: seq<nat>, id: seq<nat>)
    requires id == Identity(|ps|) && forall k, l :: 0 <= k < l < |ps| ==> ps[k] < ps[l]
    requires forall i :: 0 <= i < |ps| ==> ps[i] <= id[i]
    ensures ps == id
  {
    forall i | 0 <= i < |ps| ensures ps[i] == id[i] {
      AtLeastIndex(ps, i);
    }
  }

  lemma {:induction false} AtLeastIndex(ps: seq<nat>, i: nat)
    requires i < |ps| && forall k, l :: 0 <= k < l < |ps| ==> ps[k] < ps[l]
    ensures i <= ps[i]
  {
    if i > 0 { AtLeastIndex(ps, i - 1); }
  }

  /** What the `n`-th match earns in any name is at most what it earns in the term itself. */
  lemma MatchInItselfIsBest(name: string, term: string, ps: seq<nat>, n: nat)
    requires Embeds(ps, term, name) && n < |ps|
    ensures Earned(name, ps[n], LastOf(ps[..n])) <= Earned(term, n, LastOf(Identity(n)))
  {
    if n > 0 {
      NextIsBest(name, term, ps[n], ps[n - 1], n);
      assert LastOf(ps[..n]) == Some(ps[n - 1]) && LastOf(Identity(n)) == Some(n - 1);
    } else {
      assert LastOf(ps[..n]) == None && LastOf(Identity(n)) == None;
    }
  }

  /** Past the first match, only an adjacent one keeps both bonuses, and the term has that one too. */
  lemma NextIsBest(name: string, term: string, p: nat, previous: nat, n: nat)
    requires previous < p < |name| && 0 < n < |term| && name[previous] == term[n - 1]
    ensures Earned(name, p, Some(previous)) <= Earned(term, n, Some(n - 1))
  {
  }

  lemma {:induction false} PlacesInItselfAreBest(name: string, term: string, ps: seq<nat>, n: nat)
    requires Embeds(ps, term, name) && n <= |ps|
    ensures PlacesScore(name, ps[..n]) <= PlacesScore(term, Identity(n))
    decreases n
  {
    if n > 0 {
      var m := n - 1;
      PlacesInItselfAreBest(name, term, ps, m);
      MatchInItselfIsBest(name, term, ps, m);
      NextPlaceIsBest(name, term, ps[..m], ps[m], Identity(m), m);
      assert ps[..n] == ps[..m] + [ps[m]];
      assert Identity(n) == Identity(m) + [m];
    }
  }

  lemma NextPlaceIsBest(name: string, term: string, before: seq<nat>, p: nat, own: seq<nat>, n: nat)
    requires p < |name| && forall i :: 0 <= i < |before| ==> before[i] < |name|
    requires n < |term| && forall i :: 0 <= i < |own| ==> own[i] < |term|
    requires PlacesScore(name, before) <= PlacesScore(term, own)
    requires Earned(name, p, LastOf(before)) <= Earned(term, n, LastOf(own))
    ensures PlacesScore(name, before + [p]) <= PlacesScore(term, own + [n])
  {
    PlacesSnoc(name, before, p);
    PlacesSnoc(term, own, n);
  }

  /** No name scores higher for a term than the term itself: an exact name is never outranked. */
  lemma ExactNameIsBest(name: string, term: string)
    requires TermScore(name, term).Some?
    ensures TermScore(term, term).Some? && TermScore(name, term).value <= TermScore(term, term).value
  {
    if term != "" {
      var ps := Leftmost(name, term).value;
      LeftmostPlaces(name, term, 0, 0);
      PlacesInItselfAreBest(name, term, ps, |ps|);
      LeftmostOfItself(term);
      assert ps[..|ps|] == ps;
      assert ContainsFrom(term, term);
    }
  }

  // ---- queries --------------------------------------------------------------

  /** The score of several terms: their sum, provided each scores. */
  function TermsScore(name: string, terms: seq<string>, score: int): Option<int>
    decreases |terms|
  {
    if terms == [] then Some(score)
    else
      var first := TermScore(name, terms[0]);
      if first.None? then None else TermsScore(name, terms[1..], score + first.value)
  }

  /** `lower` is the standard library's lower-casing, which this model takes as it comes. */
  function FuzzyProjectScore(name: string, query: string, lower: string -> string): Option<int> {
    var q := lower(Trim(query));
    if q == "" then Some(0) else TermsScore(lower(name), SplitWhitespace(q), 0)
  }

  function QueryTerms(query: string, lower: string -> string): seq<string> {
    SplitWhitespace(lower(Trim(query)))
  }

  ghost predicate Matches(name: string, query: string, lower: string -> string) {
    forall term :: term in QueryTerms(query, lower) ==> IsSubsequence(term, lower(name))
  }

  lemma {:induction false} TermsScoreIff(name: string, terms: seq<string>, score: int)
    ensures TermsScore(name, terms, score).Some? <==> forall term :: term in terms ==> IsSubsequence(term, name)
    decreases |terms|
  {
    if terms != [] {
      ScoresIffSubsequence(name, terms[0]);
      if TermScore(name, terms[0]).Some? {
        TermsScoreIff(name, terms[1..], score + TermScore(name, terms[0]).value);
        assert forall term :: term in terms <==> term == terms[0] || term in terms[1..];
      }
    }
  }

  /** A project is listed exactly when every word typed is a subsequence of its name. */
  lemma ProjectScoresIff(name: string, query: string, lower: string -> string)
    ensures FuzzyProjectScore(name, query, lower).Some? <==> Matches(name, query, lower)
  {
    TermsScoreIff(lower(name), QueryTerms(query, lower), 0);
  }

  // ---- the list -------------------------------------------------------------

  datatype ConfiguredProject = ConfiguredProject(name: string, path: string, remote: Option<string>)

  datatype OpenWorkspaceMatch = OpenWorkspaceMatch(name: string, path: string, remote: Option<string>)

  /** A blank destination is none. */
  function RemoteDestination(project: ConfiguredProject): Option<string> {
    if project.remote.None? || Trim(project.remote.value) == "" then None else Some(Trim(project.remote.value))
  }

  function Listed(project: ConfiguredProject): OpenWorkspaceMatch {
    OpenWorkspaceMatch(project.name, project.path, RemoteDestination(project))
  }

  datatype Entry = Entry(score: int, index: nat)

  /** Higher scores first, ties in the order of the configuration. */
  predicate Before(a: Entry, b: Entry) {
    a.score > b.score || (a.score == b.score && a.index < b.index)
  }

  predicate Ranked(es: seq<Entry>) {
    forall i, j :: 0 <= i < j < |es| ==> Before(es[i], es[j])
  }

  /** The entries of the matching projects, in configuration order. */
  function Candidates(query: string, projects: seq<ConfiguredProject>, lower: string -> string): seq<Entry> {
    if projects == [] then []
    else
      var n := |projects| - 1;
      var score := FuzzyProjectScore(projects[n].name, query, lower);
      Candidates(query, projects[..n], lower) + if score.None? then [] else [Entry(score.value, n)]
  }

  predicate IsEntry(e: Entry, query: string, projects: seq<ConfiguredProject>, lower: string -> string) {
    e.index < |projects| && FuzzyProjectScore(projects[e.index].name, query, lower) == Some(e.score)
  }

  lemma {:induction false} CandidatesAreTheEntries(query: string, projects: seq<ConfiguredProject>,
                                                   lower: string -> string, e: Entry)
    ensures e in Candidates(query, projects, lower) <==> IsEntry(e, query, projects, lower)
    decreases |projects|
  {
    if projects != [] {
      CandidatesAreTheEntries(query, projects[..|projects| - 1], lower, e);
    }
  }

  predicate Ascending(es: seq<Entry>) {
    forall i, j :: 0 <= i < j < |es| ==> es[i].index < es[j].index
  }

  lemma {:induction false} CandidatesAscend(query: string, projects: seq<ConfiguredProject>, lower: string -> string)
    ensures Ascending(Candidates(query, projects, lower))
    decreases |projects|
  {
    if projects != [] {
      var init := projects[..|projects| - 1];
      CandidatesAscend(query, init, lower);
      forall e | e in Candidates(query, init, lower) ensures e.index < |init| {
        CandidatesAreTheEntries(query, init, lower, e);
      }
    }
  }

  /** Sorting by the comparison above; any sort gives the same list (`RankingIsForced`). */
  function Sorted(es: seq<Entry>): seq<Entry> {
    if es == [] then [] else Insert(es[|es| - 1], Sorted(es[..|es| - 1]))
  }

  function Insert(e: Entry, es: seq<Entry>): seq<Entry> {
    if es == [] || Before(e, es[0]) then [e] + es else [es[0]] + Insert(e, es[1..])
  }

  lemma {:induction false} InsertHolds(e: Entry, es: seq<Entry>, x: Entry)
    ensures x in Insert(e, es) <==> x == e || x in es
    decreases |es|
  {
    if es != [] && !Before(e, es[0]) {
      InsertHolds(e, es[1..], x);
      assert es == [es[0]] + es[1..];
    }
  }

  lemma {:induction false} InsertKeepsRank(e: Entry, es: seq<Entry>)
    requires Ranked(es) && forall x :: x in es ==> x.index != e.index
    ensures Ranked(Insert(e, es))
    decreases |es|
  {
    if es != [] && !Before(e, es[0]) {
      var rest := es[1..];
      InsertKeepsRank(e, rest);
      assert es[0] in es;
      forall x | x in Insert(e, rest) ensures Before(es[0], x) {
        InsertHolds(e, rest, x);
      }
    }
  }

  lemma {:induction false} SortedHolds(es: seq<Entry>, x: Entry)
    ensures x in Sorted(es) <==> x in es
    decreases |es|
  {
    if es != [] {
      var init, last := es[..|es| - 1], es[|es| - 1];
      SortedHolds(init, x);
      InsertHolds(last, Sorted(init), x);
      assert es == init + [last];
    }
  }

  lemma {:induction false} SortedIsRanked(es: seq<Entry>)
    requires Ascending(es)
    ensures Ranked(Sorted(es))
    decreases |es|
  {
    if es != [] {
      var init, last := es[..|es| - 1], es[|es| - 1];
      SortedIsRanked(init);
      forall x | x in Sorted(init) ensures x.index != last.index {
        SortedHolds(init, x);
        var i :| 0 <= i < |init| && init[i] == x;
        assert es[i] == x;
      }
      InsertKeepsRank(last, Sorted(init));
    }
  }

  /** A ranked list is fixed by what is in it. */
  lemma {:induction false} RankingIsForced(a: seq<Entry>, b: seq<Entry>)
    requires Ranked(a) && Ranked(b) && forall e :: e in a <==> e in b
    ensures a == b
    decreases |a|
  {
    if a == [] {
      if b != [] { HasFirst(b); }
    } else {
      assert a[0] in b;
      assert b[0] in a;
      var i :| 0 <= i < |b| && b[i] == a[0];
      var j :| 0 <= j < |a| && a[j] == b[0];
      assert a[0] == b[0];
      forall e ensures e in a[1..] <==> e in b[1..] {
        SameTail(a, b, e);
        SameTail(b, a, e);
      }
      RankingIsForced(a[1..], b[1..]);
    }
  }

  lemma HasFirst(b: seq<Entry>)
    requires b != []
    ensures exists e :: e in b
  {
    assert b[0] in b;
  }

  lemma SameTail(a: seq<Entry>, b: seq<Entry>, e: Entry)
    requires a != [] && b != [] && Ranked(a) && a[0] == b[0] && forall x :: x in a ==> x in b
    ensures e in a[1..] ==> e in b[1..]
  {
    if e in a[1..] {
      var i :| 0 <= i < |a[1..]| && a[1..][i] == e;
      assert a[i + 1] == e && Before(a[0], a[i + 1]);
      assert e in b;
    }
  }

  /** The list the prompt must show: each matching project once, best first, ties in configuration order. */
  ghost predicate IsRanking(es: seq<Entry>, query: string, projects: seq<ConfiguredProject>, lower: string -> string) {
    Ranked(es) && forall e :: e in es <==> IsEntry(e, query, projects, lower)
  }

  function AllListed(es: seq<Entry>, projects: seq<ConfiguredProject>): seq<OpenWorkspaceMatch>
    requires forall e :: e in es ==> e.index < |projects|
  {
    seq(|es|, i requires 0 <= i < |es| => Listed(projects[es[i].index]))
  }

  method OpenWorkspaceMatchesFor(query: string, projects: seq<ConfiguredProject>, lower: string -> string)
    returns (matches: seq<OpenWorkspaceMatch>)
    ensures exists es :: IsRanking(es, Trim(query), projects, lower) && matches == AllListed(es, projects)
  {
    var q := Trim(query);
    var entries := Candidates(q, projects, lower);
    RankingHolds(q, projects, lower);
    entries := Sorted(entries);
    matches := AllListed(entries, projects);
  }

  lemma RankingHolds(query: string, projects: seq<ConfiguredProject>, lower: string -> string)
    ensures IsRanking(Sorted(Candidates(query, projects, lower)), query, projects, lower)
  {
    var es := Candidates(query, projects, lower);
    CandidatesAscend(query, projects, lower);
    SortedIsRanked(es);
    forall e ensures e in Sorted(es) <==> IsEntry(e, query, projects, lower) {
      SortedHolds(es, e);
      CandidatesAreTheEntries(query, projects, lower, e);
    }
  }

  /** Every matching project is in the ranking, at one place; no other is. */
  lemma EachMatchOnce(es: seq<Entry>, query: string, projects: seq<ConfiguredProject>, lower: string -> string,
                      index: nat)
    requires IsRanking(es, query, projects, lower)
    ensures (exists i :: 0 <= i < |es| && es[i].index == index)
            <==> index < |projects| && Matches(projects[index].name, query, lower)
    ensures forall i, j :: 0 <= i < j < |es| ==> es[i].index != es[j].index
  {
    forall i, j | 0 <= i < j < |es| ensures es[i].index != es[j].index {
      assert es[i] in es && es[j] in es && Before(es[i], es[j]);
    }
    if index < |projects| {
      ProjectScoresIff(projects[index].name, query, lower);
      var score := FuzzyProjectScore(projects[index].name, query, lower);
      if score.Some? {
        var e := Entry(score.value, index);
        assert IsEntry(e, query, projects, lower);
        assert e in es;
      }
    }
    if i :| 0 <= i < |es| && es[i].index == index {
      assert es[i] in es;
    }
  }
}
