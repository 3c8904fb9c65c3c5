/** The preference jury: several models judge two candidate answers in both orders, and their votes are counted. */
module Jury {
  import opened Wrappers

  datatype Winner = A | B | Tie

  function Swap(w: Winner): Winner {
    match w
    case A => B
    case B => A
    case Tie => Tie
  }

  // ----- one juror -----

  /** What comes back from one call: a failure of any kind, or an object naming a winner and a confidence. */
  datatype Reply = Broken | Said(winner: string, confidence: real)

  datatype Verdict = Verdict(winner: Winner, confidence: real)

  function ParseVerdict(reply: Reply): (v: Option<Verdict>)
    ensures v.Some? <==> (reply.Said? && reply.winner in ["a", "b", "tie"] && 0.0 <= reply.confidence <= 1.0)
    ensures v.Some? ==> v.value.confidence == reply.confidence
    ensures v.Some? ==> (v.value.winner == A <==> reply.winner == "a") && (v.value.winner == B <==> reply.winner == "b")
  {
    if reply.Broken? || !(0.0 <= reply.confidence <= 1.0) then None
    else if reply.winner == "a" then Some(Verdict(A, reply.confidence))
    else if reply.winner == "b" then Some(Verdict(B, reply.confidence))
    else if reply.winner == "tie" then Some(Verdict(Tie, reply.confidence))
    else None
  }

  /** One seat of the panel, and the pair it is asked about. */
  datatype Juror = Juror(family: string, model: string)
  datatype Spec = Spec(prompt: string, a: string, b: string, sourceFamily: Option<string>)

  /** Exactly what a juror is shown. */
  datatype Question = Question(model: string, prompt: string, first: string, second: string)

  /** The jurors as functions of what they are shown: the reply to the n-th attempt at a question. */
  type Oracle = (Question, nat) -> Reply

  const JUROR_ATTEMPTS := 4

  /** The first well-formed reply from attempt `attempt` on, if one of the allowed attempts brings one. */
  function FirstValid(ask: Oracle, q: Question, attempt: nat): Option<Verdict>
    decreases JUROR_ATTEMPTS - attempt
  {
    if JUROR_ATTEMPTS <= attempt then None
    else if ParseVerdict(ask(q, attempt)).Some? then ParseVerdict(ask(q, attempt))
    else FirstValid(ask, q, attempt + 1)
  }

  /** A reply to the contract: an object that names a candidate, or a tie, with a confidence between 0 and 1. */
  predicate WellFormed(reply: Reply) {
    reply.Said? && reply.winner in ["a", "b", "tie"] && 0.0 <= reply.confidence <= 1.0
  }

  /** The n-th of the four replies is the first that is well formed. */
  predicate AnswersAt(ask: Oracle, q: Question, n: nat) {
    n < 4 && WellFormed(ask(q, n)) && forall m: nat :: m < n ==> !WellFormed(ask(q, m))
  }

  /** That reply names this candidate. */
  ghost predicate FirstSays(ask: Oracle, q: Question, word: string) {
    exists n: nat :: AnswersAt(ask, q, n) && ask(q, n).winner == word
  }

  /** The verdict of a juror is its first well-formed reply. */
  lemma {:induction false} FirstValidIs(ask: Oracle, q: Question, from: nat)
    requires forall m: nat :: m < from ==> !WellFormed(ask(q, m))
    ensures FirstValid(ask, q, from).Some? <==> exists n: nat :: AnswersAt(ask, q, n)
    ensures forall n: nat :: AnswersAt(ask, q, n) ==>
      FirstValid(ask, q, from) == ParseVerdict(ask(q, n)) && FirstValid(ask, q, from).Some?
    decreases JUROR_ATTEMPTS - from
  {
    hide ParseVerdict;
    if from < JUROR_ATTEMPTS {
      if ParseVerdict(ask(q, from)).Some? {
        assert AnswersAt(ask, q, from);
        forall n: nat | AnswersAt(ask, q, n) ensures n == from {}
      } else {
        FirstValidIs(ask, q, from + 1);
      }
    }
  }

  lemma VerdictSays(ask: Oracle, q: Question)
    ensures
      var v := FirstValid(ask, q, 0);
      && (FirstSays(ask, q, "a") <==> v.Some? && v.value.winner == A)
      && (FirstSays(ask, q, "b") <==> v.Some? && v.value.winner == B)
  {
    hide ParseVerdict, FirstValid;
    FirstValidIs(ask, q, 0);
  }

  method AskJuror(ask: Oracle, q: Question) returns (r: Option<Verdict>)
    ensures r == FirstValid(ask, q, 0)
    ensures r.None? <==> forall n: nat :: n < JUROR_ATTEMPTS ==> !WellFormed(ask(q, n))
    ensures FirstSays(ask, q, "a") <==> r.Some? && r.value.winner == A
    ensures FirstSays(ask, q, "b") <==> r.Some? && r.value.winner == B
  {
    hide FirstSays;
    VerdictSays(ask, q);
    var attempt: nat := 0;
    while attempt < JUROR_ATTEMPTS
      invariant attempt <= JUROR_ATTEMPTS
      invariant FirstValid(ask, q, attempt) == FirstValid(ask, q, 0)
      invariant forall n: nat :: n < attempt ==> !WellFormed(ask(q, n))
    {
      var verdict := ParseVerdict(ask(q, attempt));
      if verdict.Some? { return verdict; }
      attempt := attempt + 1;
    }
    r := None;
  }

  datatype Vote = Vote(
    juror: string, family: string, winner: Winner, confidence: real, forward: Winner, reverse: Winner)

  /** The vote of one juror; `None` for a juror that gave no valid verdict on one of the two orderings. */
  function JudgeWithJuror(ask: Oracle, juror: Juror, spec: Spec): Option<Vote> {
    var forward := FirstValid(ask, Question(juror.model, spec.prompt, spec.a, spec.b), 0);
    var reverse := FirstValid(ask, Question(juror.model, spec.prompt, spec.b, spec.a), 0);
    if forward.None? || reverse.None? then None
    else
      var consistent := forward.value.winner == Swap(reverse.value.winner);
      Some(Vote(juror.model, juror.family,
                if consistent then forward.value.winner else Tie,
                (forward.value.confidence + reverse.value.confidence) / 2.0,
                forward.value.winner, reverse.value.winner))
  }

  // ----- counting -----

  /** How many votes went to `w`. */
  function Count(votes: seq<Vote>, w: Winner): (n: nat)
    ensures n <= |votes|
  {
    if votes == [] then 0
    else Count(votes[..|votes| - 1], w) + (if votes[|votes| - 1].winner == w then 1 else 0)
  }

  function TotalConfidence(votes: seq<Vote>): real {
    if votes == [] then 0.0
    else TotalConfidence(votes[..|votes| - 1]) + votes[|votes| - 1].confidence
  }

  /** Where the first vote for `w` stands; past the end when there is none. */
  function FirstAt(votes: seq<Vote>, w: Winner): (i: nat)
    ensures i <= |votes|
    ensures forall j :: 0 <= j < i ==> votes[j].winner != w
    ensures i < |votes| ==> votes[i].winner == w
  {
    if votes == [] then 0
    else
      var before := FirstAt(votes[..|votes| - 1], w);
      if before < |votes| - 1 || votes[|votes| - 1].winner == w then before else |votes|
  }

  /** `x` has more votes than `y`, or as many and was voted for first. */
  predicate Leads(votes: seq<Vote>, x: Winner, y: Winner) {
    Count(votes, x) > Count(votes, y)
    || (Count(votes, x) == Count(votes, y) && FirstAt(votes, x) <= FirstAt(votes, y))
  }

  /** The plurality winner, an exact tie in votes going to whoever was voted for first. */
  function Plurality(votes: seq<Vote>): Winner {
    if Leads(votes, A, B) && Leads(votes, A, Tie) then A
    else if Leads(votes, B, Tie) && Leads(votes, B, A) then B
    else Tie
  }

  datatype Tally = Tally(winner: Winner, agreement: real, confidence: real, accepted: bool)

  const AGREEMENT_THRESHOLD: real := 0.75

  function Aggregate(votes: seq<Vote>): Result<Tally, string> {
    if votes == [] then Err("no juror produced a verdict")
    else
      var winner := Plurality(votes);
      var agreement := Count(votes, winner) as real / |votes| as real;
      Ok(Tally(winner, agreement, TotalConfidence(votes) / |votes| as real,
               winner != Tie && agreement >= AGREEMENT_THRESHOLD))
  }

  lemma {:induction false} CountIsPositive(votes: seq<Vote>, w: Winner)
    ensures Count(votes, w) > 0 <==> FirstAt(votes, w) < |votes|
  {
    if votes != [] { CountIsPositive(votes[..|votes| - 1], w); }
  }

  /** The winner leads every candidate, has a vote, and is the only one that leads them all. */
  lemma PluralityLeads(votes: seq<Vote>, x: Winner)
    requires votes != []
    ensures Leads(votes, Plurality(votes), x)
    ensures Count(votes, Plurality(votes)) > 0
    ensures (forall y :: Leads(votes, x, y)) ==> x == Plurality(votes)
  {
    hide Count, FirstAt;
    CountIsPositive(votes, A);
    CountIsPositive(votes, B);
    CountIsPositive(votes, Tie);
    CountIsPositive(votes, votes[0].winner);
    if forall y :: Leads(votes, x, y) { assert Leads(votes, x, Plurality(votes)); }
  }

  method AggregateVotes(votes: seq<Vote>) returns (r: Result<Tally, string>)
    ensures r == Aggregate(votes)
  {
    if |votes| == 0 { return Err("no juror produced a verdict"); }
    var counts, order := CountVotes(votes);
    var winner: Winner, count: int := Tie, -1;
    var k := 0;
    while k < |order|
      invariant 0 <= k <= |order|
      invariant k == 0 ==> count == -1
      invariant k > 0 ==> winner in order[..k] && count == counts[winner]
      invariant forall j :: 0 <= j < k ==> Leads(votes, winner, order[j])
    {
      if counts[order[k]] > count {
        winner, count := order[k], counts[order[k]];
      }
      k := k + 1;
    }
    var total := 0.0;
    var i := 0;
    while i < |votes|
      invariant 0 <= i <= |votes|
      invariant total == TotalConfidence(votes[..i])
    {
      total := total + votes[i].confidence;
      assert votes[..i + 1][..i] == votes[..i];
      i := i + 1;
    }
    assert votes[..i] == votes;
    OrderCoversAll(votes, order, winner);
    var agreement := count as real / |votes| as real;
    r := Ok(Tally(winner, agreement, total / |votes| as real, winner != Tie && agreement >= AGREEMENT_THRESHOLD));
  }

  /** The candidates voted for among the first `n` votes, in order of their first vote. */
  predicate InFirstOrder(votes: seq<Vote>, order: seq<Winner>, n: nat) {
    && (forall j :: 0 <= j < |order| ==> FirstAt(votes, order[j]) < n)
    && (forall i, j :: 0 <= i < j < |order| ==> FirstAt(votes, order[i]) < FirstAt(votes, order[j]))
    && (forall w :: FirstAt(votes, w) < n ==> w in order)
  }

  /** The order of first votes after one more vote. */
  lemma OrderGrows(votes: seq<Vote>, order: seq<Winner>, i: nat)
    requires i < |votes| && InFirstOrder(votes, order, i)
    ensures votes[i].winner in order ==> InFirstOrder(votes, order, i + 1)
    ensures votes[i].winner !in order ==> InFirstOrder(votes, order + [votes[i].winner], i + 1)
  {
    var w := votes[i].winner;
    assert FirstAt(votes, w) <= i;
    if w !in order {
      assert FirstAt(votes, w) == i;
    }
    forall y | FirstAt(votes, y) < i + 1 ensures y in order + [w] && (w in order ==> y in order) {
      if FirstAt(votes, y) == i { assert y == w; }
    }
  }

  /** The counting loop; `order` is the insertion order in which the map is later walked. */
  method CountVotes(votes: seq<Vote>) returns (counts: map<Winner, nat>, order: seq<Winner>)
    ensures InFirstOrder(votes, order, |votes|)
    ensures forall w :: w in order <==> w in counts
    ensures forall w :: Count(votes, w) == if w in counts then counts[w] else 0
  {
    counts, order := map[], [];
    assert InFirstOrder(votes, order, 0);
    hide InFirstOrder, FirstAt;
    var i := 0;
    while i < |votes|
      invariant 0 <= i <= |votes|
      invariant InFirstOrder(votes, order, i)
      invariant forall w :: w in order <==> w in counts
      invariant forall w :: Count(votes[..i], w) == if w in counts then counts[w] else 0
    {
      var w := votes[i].winner;
      assert votes[..i + 1][..i] == votes[..i];
      OrderGrows(votes, order, i);
      if w in counts {
        counts := counts[w := counts[w] + 1];
      } else {
        counts := counts[w := 1];
        order := order + [w];
      }
      i := i + 1;
    }
    assert votes[..i] == votes;
  }

  lemma OrderCoversAll(votes: seq<Vote>, order: seq<Winner>, winner: Winner)
    requires votes != [] && InFirstOrder(votes, order, |votes|)
    requires order != [] ==> winner in order && forall j :: 0 <= j < |order| ==> Leads(votes, winner, order[j])
    ensures winner == Plurality(votes)
  {
    assert FirstAt(votes, votes[0].winner) == 0;
    CountIsPositive(votes, winner);
    forall y ensures Leads(votes, winner, y) {
      CountIsPositive(votes, y);
      if y in order {}
    }
    PluralityLeads(votes, winner);
  }

  // ----- the order of the votes -----

  /** Taking out the vote at `i` takes out one count and its confidence. */
  lemma {:induction false} TakeOut(votes: seq<Vote>, i: nat, w: Winner)
    requires i < |votes|
    ensures var rest := votes[..i] + votes[i + 1..];
      && Count(votes, w) == Count(rest, w) + (if votes[i].winner == w then 1 else 0)
      && TotalConfidence(votes) == TotalConfidence(rest) + votes[i].confidence
  {
    var front, last := votes[..|votes| - 1], |votes| - 1;
    if i == last {
      assert votes[..i] + votes[i + 1..] == front;
    } else {
      TakeOut(front, i, w);
      var rest := votes[..i] + votes[i + 1..];
      assert rest[..|rest| - 1] == front[..i] + front[i + 1..];
      assert rest[|rest| - 1] == votes[last];
    }
  }

  lemma {:induction false} CountsIgnoreOrder(votes: seq<Vote>, other: seq<Vote>, w: Winner)
    requires multiset(votes) == multiset(other)
    ensures |votes| == |other| && Count(votes, w) == Count(other, w)
    ensures TotalConfidence(votes) == TotalConfidence(other)
  {
    assert |multiset(votes)| == |multiset(other)|;
    if votes != [] {
      var last := |votes| - 1;
      var i := SameVote(votes, other);
      CountsIgnoreOrder(votes[..last], other[..i] + other[i + 1..], w);
      TakeOut(other, i, w);
    }
  }

  /** The last vote of one ordering stands somewhere in the other, and the remaining votes are again the same. */
  lemma SameVote(votes: seq<Vote>, other: seq<Vote>) returns (i: nat)
    requires votes != [] && multiset(votes) == multiset(other)
    ensures i < |other| && other[i] == votes[|votes| - 1]
    ensures multiset(votes[..|votes| - 1]) == multiset(other[..i] + other[i + 1..])
  {
    i := Find(other, votes[|votes| - 1]);
    WithoutLast(votes);
    Without(other, i);
  }

  lemma Find(votes: seq<Vote>, v: Vote) returns (i: nat)
    requires v in multiset(votes)
    ensures i < |votes| && votes[i] == v
  {
    i :| 0 <= i < |votes| && votes[i] == v;
  }

  lemma WithoutLast(votes: seq<Vote>)
    requires votes != []
    ensures multiset(votes[..|votes| - 1]) == multiset(votes) - multiset{votes[|votes| - 1]}
    ensures votes[|votes| - 1] in multiset(votes)
  {
    assert votes == votes[..|votes| - 1] + [votes[|votes| - 1]];
  }

  lemma Without(votes: seq<Vote>, i: nat)
    requires i < |votes|
    ensures multiset(votes[..i] + votes[i + 1..]) == multiset(votes) - multiset{votes[i]}
  {
    assert votes == votes[..i] + [votes[i]] + votes[i + 1..];
  }

  /** The votes with the one at `i` called out first. */
  function ToFront(votes: seq<Vote>, i: nat): seq<Vote>
    requires i < |votes|
  {
    [votes[i]] + (votes[..i] + votes[i + 1..])
  }

  lemma ToFrontIsSame(votes: seq<Vote>, i: nat)
    requires i < |votes|
    ensures multiset(ToFront(votes, i)) == multiset(votes)
  {
    Without(votes, i);
  }

  lemma {:induction false} EveryVoteCounts(votes: seq<Vote>)
    ensures Count(votes, A) + Count(votes, B) + Count(votes, Tie) == |votes|
  {
    if votes != [] { EveryVoteCounts(votes[..|votes| - 1]); }
  }

  lemma ShareIsLarge(count: nat, all: nat)
    requires all > 0
    ensures count as real / all as real >= AGREEMENT_THRESHOLD <==> 4 * count >= 3 * all
  {
    var n, share := all as real, count as real / all as real;
    assert share * n == count as real;
    SignOfProduct(share - AGREEMENT_THRESHOLD, n);
    assert (share - AGREEMENT_THRESHOLD) * n == share * n - AGREEMENT_THRESHOLD * n;
  }

  lemma SignOfProduct(x: real, n: real)
    requires n > 0.0
    ensures x * n >= 0.0 <==> x >= 0.0
  {
  }

  /** `w` has more votes than every other candidate. */
  predicate Strictly(votes: seq<Vote>, w: Winner) {
    forall y :: y != w ==> Count(votes, y) < Count(votes, w)
  }

  /**
   A verdict is accepted exactly when some candidate other than a tie got three quarters of the votes; that candidate
   is the winner, and has strictly more votes than any other.
   */
  lemma AcceptedMeans(votes: seq<Vote>)
    requires votes != []
    ensures Aggregate(votes).value.accepted <==> exists w :: w != Tie && 4 * Count(votes, w) >= 3 * |votes|
    ensures Aggregate(votes).value.accepted ==> Strictly(votes, Aggregate(votes).value.winner)
  {
    hide Count, FirstAt, Plurality, TotalConfidence;
    EveryVoteCounts(votes);
    var winner := Plurality(votes);
    ShareIsLarge(Count(votes, winner), |votes|);
    forall w ensures Leads(votes, winner, w) { PluralityLeads(votes, w); }
    assert Leads(votes, winner, A) && Leads(votes, winner, B) && Leads(votes, winner, Tie);
  }

  /** A candidate with strictly the most votes wins. */
  lemma StrictWins(votes: seq<Vote>, w: Winner)
    requires votes != [] && Strictly(votes, w)
    ensures Plurality(votes) == w
  {
    hide Count, FirstAt, Plurality;
    PluralityLeads(votes, w);
  }

  /**
   Agreement, confidence and acceptance never depend on the order in which the jurors' votes arrive, and an
   accepted verdict does not depend on it at all.
   */
  lemma VerdictIgnoresOrder(votes: seq<Vote>, other: seq<Vote>)
    requires votes != [] && multiset(votes) == multiset(other)
    ensures Aggregate(other).Ok?
    ensures var r, s := Aggregate(votes).value, Aggregate(other).value;
      && r.agreement == s.agreement && r.confidence == s.confidence && r.accepted == s.accepted
      && (r.accepted ==> r.winner == s.winner)
  {
    hide Count, FirstAt, Plurality, TotalConfidence;
    forall w ensures |votes| == |other| && Count(votes, w) == Count(other, w)
      && TotalConfidence(votes) == TotalConfidence(other)
    {
      CountsIgnoreOrder(votes, other, w);
    }
    CountsIgnoreOrder(votes, other, A);
    PluralityLeads(votes, Plurality(other));
    PluralityLeads(other, Plurality(votes));
    AcceptedMeans(votes);
    AcceptedMeans(other);
    if Strictly(votes, Plurality(votes)) {
      assert Strictly(other, Plurality(votes));
      StrictWins(other, Plurality(votes));
    }
  }

  /** The winner is the same for every order of the votes exactly when it has strictly the most of them. */
  lemma WinnerIgnoresOrderIff(votes: seq<Vote>)
    requires votes != []
    ensures (forall other :: multiset(other) == multiset(votes) ==> Plurality(other) == Plurality(votes))
       <==> Strictly(votes, Plurality(votes))
  {
    hide Count, FirstAt, Plurality;
    var winner := Plurality(votes);
    if Strictly(votes, winner) {
      forall other | multiset(other) == multiset(votes) ensures Plurality(other) == winner {
        forall w ensures Count(other, w) == Count(votes, w) && |other| == |votes| {
          CountsIgnoreOrder(other, votes, w);
        }
        CountsIgnoreOrder(other, votes, A);
        assert Strictly(other, winner);
        StrictWins(other, winner);
      }
    } else {
      var rival :| rival != winner && Count(votes, rival) >= Count(votes, winner);
      PluralityLeads(votes, rival);
      RivalFirst(votes, winner, rival);
    }
  }

  /** A rival with as many votes wins once one of its votes comes first. */
  lemma RivalFirst(votes: seq<Vote>, winner: Winner, rival: Winner)
    requires votes != [] && rival != winner && Count(votes, rival) == Count(votes, winner) > 0
    ensures exists other :: multiset(other) == multiset(votes) && Plurality(other) != winner
  {
    hide Count, FirstAt, Plurality;
    CountIsPositive(votes, rival);
    var other := ToFront(votes, FirstAt(votes, rival));
    ToFrontIsSame(votes, FirstAt(votes, rival));
    assert other[0].winner == rival;
    hide ToFront;
    CountsIgnoreOrder(other, votes, rival);
    CountsIgnoreOrder(other, votes, winner);
    PluralityLeads(other, rival);
  }

  // ----- the order of the candidates -----

  function Mirror(v: Vote): Vote {
    v.(winner := Swap(v.winner), forward := v.reverse, reverse := v.forward)
  }

  function Mirrored(votes: seq<Vote>): (m: seq<Vote>)
    ensures |m| == |votes|
    ensures forall i :: 0 <= i < |votes| ==> m[i] == Mirror(votes[i])
  {
    seq(|votes|, i requires 0 <= i < |votes| => Mirror(votes[i]))
  }

  lemma MirroredFront(votes: seq<Vote>)
    requires votes != []
    ensures Mirrored(votes) == Mirrored(votes[..|votes| - 1]) + [Mirror(votes[|votes| - 1])]
  {
  }

  lemma {:induction false} MirroredCounts(votes: seq<Vote>, w: Winner)
    ensures Count(Mirrored(votes), Swap(w)) == Count(votes, w)
    ensures TotalConfidence(Mirrored(votes)) == TotalConfidence(votes)
  {
    if votes != [] {
      var front := Mirrored(votes[..|votes| - 1]);
      MirroredCounts(votes[..|votes| - 1], w);
      MirroredFront(votes);
      assert Mirrored(votes)[..|votes| - 1] == front;
    }
  }

  lemma MirroredFirst(votes: seq<Vote>, w: Winner)
    ensures FirstAt(Mirrored(votes), Swap(w)) == FirstAt(votes, w)
  {
    hide FirstAt;
    var here, there := FirstAt(votes, w), FirstAt(Mirrored(votes), Swap(w));
    assert forall j :: 0 <= j < here ==> Mirrored(votes)[j].winner == Swap(votes[j].winner) != Swap(w);
    if here < |votes| { assert Mirrored(votes)[here].winner == Swap(w); }
  }

  /** Mirrored votes give the mirrored winner and otherwise the same tally. */
  lemma MirroredTally(votes: seq<Vote>)
    requires votes != []
    ensures Aggregate(Mirrored(votes)) == Ok(Aggregate(votes).value.(winner := Swap(Aggregate(votes).value.winner)))
  {
    hide Count, FirstAt, TotalConfidence, Plurality;
    var winner := Plurality(votes);
    forall y ensures Leads(Mirrored(votes), Swap(winner), y) {
      PluralityLeads(votes, Swap(y));
      MirroredCounts(votes, winner);
      MirroredCounts(votes, Swap(y));
      MirroredFirst(votes, winner);
      MirroredFirst(votes, Swap(y));
    }
    MirroredCounts(votes, winner);
    PluralityLeads(Mirrored(votes), Swap(winner));
  }

  // ----- the whole panel -----

  predicate Recuses(juror: Juror, spec: Spec) {
    spec.sourceFamily == Some(juror.family)
  }

  /** The families that sit out, one entry per juror of the panel that does. */
  function Recused(panel: seq<Juror>, spec: Spec): seq<string> {
    if panel == [] then []
    else Recused(panel[..|panel| - 1], spec)
         + if Recuses(panel[|panel| - 1], spec) then [panel[|panel| - 1].family] else []
  }

  /** The jurors that sit, in panel order. */
  function Seated(panel: seq<Juror>, spec: Spec): (sitting: seq<Juror>)
    ensures forall j :: j in sitting <==> j in panel && !Recuses(j, spec)
  {
    if panel == [] then [] else
      var juror := panel[|panel| - 1];
      assert panel == panel[..|panel| - 1] + [juror];
      Seated(panel[..|panel| - 1], spec) + if Recuses(juror, spec) then [] else [juror]
  }

  /** The votes of the jurors that answer, in panel order. */
  function Votes(ask: Oracle, sitting: seq<Juror>, spec: Spec): seq<Vote> {
    if sitting == [] then [] else
      var juror := sitting[|sitting| - 1];
      Votes(ask, sitting[..|sitting| - 1], spec)
      + match JudgeWithJuror(ask, juror, spec) { case Some(v) => [v] case None => [] }
  }

  datatype JuryResult = JuryResult(tally: Tally, votes: seq<Vote>, recused: seq<string>)

  /** What the panel decides. */
  function Decision(ask: Oracle, apiKey: bool, panel: seq<Juror>, spec: Spec): Result<JuryResult, string> {
    if !apiKey || panel == [] then Err("no preference jury is configured")
    else if Seated(panel, spec) == [] then Err("every juror recused itself from this pair")
    else
      var votes := Votes(ask, Seated(panel, spec), spec);
      match Aggregate(votes)
      case Ok(tally) => Ok(JuryResult(tally, votes, Recused(panel, spec)))
      case Err(error) => Err(error)
  }

  method RunJury(ask: Oracle, apiKey: bool, panel: seq<Juror>, spec: Spec) returns (r: Result<JuryResult, string>)
    ensures r == Decision(ask, apiKey, panel, spec)
    ensures r.Ok? ==> forall v :: v in r.value.votes ==> spec.sourceFamily != Some(v.family)
  {
    if !apiKey || |panel| == 0 { return Err("no preference jury is configured"); }
    var recused := RecusedFamilies(panel, spec);
    var sitting := Sitting(panel, recused, spec);
    if |sitting| == 0 { return Err("every juror recused itself from this pair"); }
    var votes := CollectVotes(ask, sitting, spec);
    var tally := AggregateVotes(votes);
    match tally
    case Ok(t) => r := Ok(JuryResult(t, votes, recused));
    case Err(error) => r := Err(error);
  }

  method RecusedFamilies(panel: seq<Juror>, spec: Spec) returns (recused: seq<string>)
    ensures recused == Recused(panel, spec)
    ensures forall j :: j in panel ==> (j.family in recused <==> Recuses(j, spec))
  {
    recused := [];
    for k := 0 to |panel|
      invariant recused == Recused(panel[..k], spec)
      invariant forall f :: f in recused ==> spec.sourceFamily == Some(f)
      invariant forall j :: 0 <= j < k && Recuses(panel[j], spec) ==> panel[j].family in recused
    {
      assert panel[..k + 1][..k] == panel[..k];
      if spec.sourceFamily.Some? && panel[k].family == spec.sourceFamily.value {
        recused := recused + [panel[k].family];
      }
    }
    assert panel[..|panel|] == panel;
  }

  method Sitting(panel: seq<Juror>, recused: seq<string>, spec: Spec) returns (sitting: seq<Juror>)
    requires forall j :: j in panel ==> (j.family in recused <==> Recuses(j, spec))
    ensures sitting == Seated(panel, spec)
  {
    sitting := [];
    for k := 0 to |panel|
      invariant sitting == Seated(panel[..k], spec)
    {
      assert panel[..k + 1][..k] == panel[..k];
      if panel[k].family !in recused {
        sitting := sitting + [panel[k]];
      }
    }
    assert panel[..|panel|] == panel;
  }

  method CollectVotes(ask: Oracle, sitting: seq<Juror>, spec: Spec) returns (votes: seq<Vote>)
    ensures votes == Votes(ask, sitting, spec)
    ensures forall v :: v in votes ==> exists j :: j in sitting && j.family == v.family
  {
    votes := [];
    for k := 0 to |sitting|
      invariant votes == Votes(ask, sitting[..k], spec)
      invariant forall v :: v in votes ==> exists j :: j in sitting && j.family == v.family
    {
      assert sitting[..k + 1][..k] == sitting[..k];
      var outcome := Judge(ask, sitting[k], spec);
      if outcome.Some? {
        assert sitting[k] in sitting && sitting[k].family == outcome.value.family;
        votes := votes + [outcome.value];
      }
    }
    assert sitting[..|sitting|] == sitting;
  }

  method Judge(ask: Oracle, juror: Juror, spec: Spec) returns (vote: Option<Vote>)
    ensures vote == JudgeWithJuror(ask, juror, spec)
  {
    var forward := AskJuror(ask, Question(juror.model, spec.prompt, spec.a, spec.b));
    if forward.None? { return None; }
    var reverse := AskJuror(ask, Question(juror.model, spec.prompt, spec.b, spec.a));
    if reverse.None? { return None; }
    var f, r := forward.value, reverse.value;
    vote := Some(Vote(juror.model, juror.family, if f.winner == Swap(r.winner) then f.winner else Tie,
                      (f.confidence + r.confidence) / 2.0, f.winner, r.winner));
  }

  function Exchanged(spec: Spec): Spec {
    spec.(a := spec.b, b := spec.a)
  }

  lemma {:induction false} ExchangeSeats(panel: seq<Juror>, spec: Spec)
    ensures Seated(panel, Exchanged(spec)) == Seated(panel, spec)
    ensures Recused(panel, Exchanged(spec)) == Recused(panel, spec)
  {
    if panel != [] { ExchangeSeats(panel[..|panel| - 1], spec); }
  }

  lemma {:induction false} ExchangeMirrors(ask: Oracle, sitting: seq<Juror>, spec: Spec)
    ensures Votes(ask, sitting, Exchanged(spec)) == Mirrored(Votes(ask, sitting, spec))
  {
    hide FirstValid;
    if sitting != [] {
      ExchangeMirrors(ask, sitting[..|sitting| - 1], spec);
      var juror := sitting[|sitting| - 1];
      var here, there := JudgeWithJuror(ask, juror, spec), JudgeWithJuror(ask, juror, Exchanged(spec));
      assert there == match here { case Some(v) => Some(Mirror(v)) case None => None };
    }
  }

  /** The row a finished preference job writes, when it writes one. */
  datatype Pair = Pair(prompt: string, chosen: string, rejected: string, confidence: real, agreement: real,
                       recused: seq<string>)

  function RecordedPair(spec: Spec, r: JuryResult): Option<Pair> {
    if !r.tally.accepted then None
    else
      var chosen := if r.tally.winner.A? then spec.a else spec.b;
      var rejected := if r.tally.winner.A? then spec.b else spec.a;
      Some(Pair(spec.prompt, chosen, rejected, r.tally.confidence, r.tally.agreement, r.recused))
  }

  /** `there` is `here` with the names of the candidates exchanged, and both record the same texts. */
  predicate MirrorResult(spec: Spec, here: JuryResult, there: JuryResult) {
    && there.votes == Mirrored(here.votes)
    && there.recused == here.recused
    && there.tally == here.tally.(winner := Swap(here.tally.winner))
    && RecordedPair(Exchanged(spec), there) == RecordedPair(spec, here)
  }

  /**
   Exchanging the two candidates changes nothing but their names: the same errors, the same votes with the names
   exchanged, the same agreement, confidence and acceptance, and the same chosen and rejected texts recorded.
   */
  lemma CandidateOrderIsIrrelevant(ask: Oracle, apiKey: bool, panel: seq<Juror>, spec: Spec)
    ensures var here, there := Decision(ask, apiKey, panel, spec), Decision(ask, apiKey, panel, Exchanged(spec));
      && (here.Err? ==> there == here)
      && (here.Ok? ==> there.Ok? && MirrorResult(spec, here.value, there.value))
  {
    hide Votes, Recused, Count, Plurality, TotalConfidence;
    ExchangeSeats(panel, spec);
    ExchangeMirrors(ask, Seated(panel, spec), spec);
    var votes := Votes(ask, Seated(panel, spec), spec);
    if votes == [] {
      assert Mirrored(votes) == [];
    } else {
      MirroredTally(votes);
    }
  }

  // ----- what an accepted pair means -----

  /** Asked in both orders, the juror's first well-formed reply names this text each time. */
  ghost predicate Prefers(ask: Oracle, juror: Juror, spec: Spec, text: string) {
    var forward := Question(juror.model, spec.prompt, spec.a, spec.b);
    var reverse := Question(juror.model, spec.prompt, spec.b, spec.a);
    || (text == spec.a && FirstSays(ask, forward, "a") && FirstSays(ask, reverse, "b"))
    || (text == spec.b && FirstSays(ask, forward, "b") && FirstSays(ask, reverse, "a"))
  }

  ghost function Preferring(ask: Oracle, sitting: seq<Juror>, spec: Spec, text: string): nat {
    if sitting == [] then 0
    else Preferring(ask, sitting[..|sitting| - 1], spec, text)
         + if Prefers(ask, sitting[|sitting| - 1], spec, text) then 1 else 0
  }

  lemma VoteIsPreference(ask: Oracle, juror: Juror, spec: Spec)
    requires spec.a != spec.b
    ensures
      var vote := JudgeWithJuror(ask, juror, spec);
      && (Prefers(ask, juror, spec, spec.a) <==> vote.Some? && vote.value.winner == A)
      && (Prefers(ask, juror, spec, spec.b) <==> vote.Some? && vote.value.winner == B)
  {
    hide FirstValid, FirstSays;
    VerdictSays(ask, Question(juror.model, spec.prompt, spec.a, spec.b));
    VerdictSays(ask, Question(juror.model, spec.prompt, spec.b, spec.a));
  }

  lemma CountAppends(votes: seq<Vote>, v: Vote, w: Winner)
    ensures Count(votes + [v], w) == Count(votes, w) + if v.winner == w then 1 else 0
  {
    assert (votes + [v])[..|votes|] == votes;
  }

  lemma {:induction false} VotesArePreferences(ask: Oracle, sitting: seq<Juror>, spec: Spec)
    requires spec.a != spec.b
    ensures Count(Votes(ask, sitting, spec), A) == Preferring(ask, sitting, spec, spec.a)
    ensures Count(Votes(ask, sitting, spec), B) == Preferring(ask, sitting, spec, spec.b)
  {
    hide JudgeWithJuror, Prefers;
    if sitting != [] {
      var front, juror := sitting[..|sitting| - 1], sitting[|sitting| - 1];
      VotesArePreferences(ask, front, spec);
      VoteIsPreference(ask, juror, spec);
      var votes, vote := Votes(ask, front, spec), JudgeWithJuror(ask, juror, spec);
      hide Count;
      match vote
      case Some(v) =>
        CountAppends(votes, v, A);
        CountAppends(votes, v, B);
      case None =>
        assert votes + [] == votes;
    } else {
      assert Votes(ask, sitting, spec) == [];
    }
  }

  /**
   A pair is recorded exactly when one candidate is named, in both orders, by jurors that cast three quarters of the
   votes; that candidate is the chosen text and the other the rejected one.
   */
  lemma ChosenIsPreferred(ask: Oracle, apiKey: bool, panel: seq<Juror>, spec: Spec)
    requires spec.a != spec.b && Decision(ask, apiKey, panel, spec).Ok?
    ensures
      var r := Decision(ask, apiKey, panel, spec).value;
      var pair := RecordedPair(spec, r);
      var sitting := Seated(panel, spec);
      && (pair.Some? <==> 4 * Preferring(ask, sitting, spec, spec.a) >= 3 * |r.votes|
                          || 4 * Preferring(ask, sitting, spec, spec.b) >= 3 * |r.votes|)
      && (pair.Some? ==> 4 * Preferring(ask, sitting, spec, pair.value.chosen) >= 3 * |r.votes|)
      && (pair.Some? ==> (pair.value.chosen, pair.value.rejected) in {(spec.a, spec.b), (spec.b, spec.a)})
  {
    hide Votes, Count, Preferring, Seated, Plurality, TotalConfidence, Recused;
    var votes := Votes(ask, Seated(panel, spec), spec);
    VotesArePreferences(ask, Seated(panel, spec), spec);
    AcceptedMeans(votes);
    ShareIsLarge(Count(votes, Plurality(votes)), |votes|);
  }

  // ----- confidence -----

  /** A total of n terms between these bounds. */
  predicate Between(low: real, total: real, high: real, n: nat) {
    low * n as real <= total <= high * n as real
  }

  lemma OneMoreBetween(low: real, total: real, high: real, n: nat, x: real)
    requires Between(low, total, high, n) && low <= x <= high
    ensures Between(low, total + x, high, n + 1)
  {
    var m := n as real;
    assert (n + 1) as real == m + 1.0;
    assert low * (m + 1.0) == low * m + low && high * (m + 1.0) == high * m + high;
  }

  lemma NoneBetween(low: real, high: real)
    ensures Between(low, 0.0, high, 0)
  {
  }

  lemma {:induction false} TotalIsBetween(votes: seq<Vote>, low: real, high: real)
    requires forall v :: v in votes ==> low <= v.confidence <= high
    ensures Between(low, TotalConfidence(votes), high, |votes|)
  {
    hide Between;
    if votes == [] {
      NoneBetween(low, high);
    } else {
      var front, last := votes[..|votes| - 1], votes[|votes| - 1];
      assert last in votes && forall v :: v in front ==> v in votes;
      TotalIsBetween(front, low, high);
      OneMoreBetween(low, TotalConfidence(front), high, |front|, last.confidence);
    }
  }

  /** The panel's confidence is a mean: it lies between any bounds that hold for every juror. */
  lemma ConfidenceIsMean(votes: seq<Vote>, low: real, high: real)
    requires votes != [] && forall v :: v in votes ==> low <= v.confidence <= high
    ensures low <= Aggregate(votes).value.confidence <= high
    ensures Aggregate(votes).value.confidence * |votes| as real == TotalConfidence(votes)
  {
    hide TotalConfidence, Plurality, Count;
    TotalIsBetween(votes, low, high);
    Divided(low, TotalConfidence(votes), high, |votes| as real);
  }

  lemma Divided(low: real, total: real, high: real, n: real)
    requires n > 0.0 && low * n <= total <= high * n
    ensures low <= total / n <= high && total / n * n == total
  {
    var x := total / n;
    assert x * n == total;
    SignOfProduct(x - low, n);
    SignOfProduct(high - x, n);
    assert (x - low) * n == x * n - low * n && (high - x) * n == high * n - x * n;
  }

  /** A vote's confidence is the mean of the two replies that made it, and so between 0 and 1. */
  lemma VoteConfidence(ask: Oracle, juror: Juror, spec: Spec, m: nat, n: nat)
    requires AnswersAt(ask, Question(juror.model, spec.prompt, spec.a, spec.b), m)
    requires AnswersAt(ask, Question(juror.model, spec.prompt, spec.b, spec.a), n)
    ensures
      var forward := ask(Question(juror.model, spec.prompt, spec.a, spec.b), m).confidence;
      var reverse := ask(Question(juror.model, spec.prompt, spec.b, spec.a), n).confidence;
      var vote := JudgeWithJuror(ask, juror, spec);
      vote.Some? && 2.0 * vote.value.confidence == forward + reverse && 0.0 <= vote.value.confidence <= 1.0
  {
    hide FirstValid;
    FirstValidIs(ask, Question(juror.model, spec.prompt, spec.a, spec.b), 0);
    FirstValidIs(ask, Question(juror.model, spec.prompt, spec.b, spec.a), 0);
  }
}
