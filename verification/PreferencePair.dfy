/** The identity of a preference pair: the same prompt and candidates, in either order. */
module PreferencePair {
  import opened Canonical
  import opened JsText

  datatype Pair = Pair(prompt: Text, a: Text, b: Text)

  const PROMPT_KEY: Text := [0x70, 0x72, 0x6f, 0x6d, 0x70, 0x74]
  const CANDIDATES_KEY: Text := [0x63, 0x61, 0x6e, 0x64, 0x69, 0x64, 0x61, 0x74, 0x65, 0x73]

  lemma KeyWords()
    ensures IsWord(PROMPT_KEY, "prompt") && IsWord(CANDIDATES_KEY, "candidates")
  {
  }

  /** `[a, b].sort()`. */
  function Candidates(p: Pair): seq<Json> {
    if Less(p.b, p.a) then [Str(p.b), Str(p.a)] else [Str(p.a), Str(p.b)]
  }

  function Document(p: Pair): Json {
    Obj([Field(PROMPT_KEY, Str(p.prompt)), Field(CANDIDATES_KEY, Arr(Candidates(p)))])
  }

  /** `preferenceFingerprint`. */
  function Fingerprint(sha: Text -> Text, p: Pair): Text {
    sha(Canon(Document(p)))
  }

  /** One pair, its candidates in either order. */
  predicate SamePair(p: Pair, q: Pair) {
    p.prompt == q.prompt && ((p.a == q.a && p.b == q.b) || (p.a == q.b && p.b == q.a))
  }

  lemma CandidatesIff(p: Pair, q: Pair)
    ensures Candidates(p) == Candidates(q) <==> (p.a == q.a && p.b == q.b) || (p.a == q.b && p.b == q.a)
  {
    hide Less;
    LessIsTotal(p.a, p.b);
    LessIsStrict(p.a, p.b);
    LessIsStrict(p.b, p.a);
    if Candidates(p) == Candidates(q) {
      assert Candidates(p)[0] == Candidates(q)[0] && Candidates(p)[1] == Candidates(q)[1];
    }
  }

  lemma CandidatesAreThemselves(p: Pair)
    ensures WellFormed(Arr(Candidates(p))) && Norm(Arr(Candidates(p))) == Arr(Candidates(p))
  {
    var c := Candidates(p);
    StrIsItself(p.a);
    StrIsItself(p.b);
    hide Norm, WellFormed;
    assert c[1..][1..] == [];
    assert NormItems(c[1..]) == c[1..] && WellFormedItems(c[1..]);
    assert NormItems(c) == c && WellFormedItems(c);
    ArrIs(c);
  }

  lemma ArrIs(items: seq<Json>)
    ensures WellFormed(Arr(items)) == WellFormedItems(items) && Norm(Arr(items)) == Arr(NormItems(items))
  {
  }

  lemma DocumentNorm(p: Pair)
    ensures WellFormed(Document(p))
    ensures Norm(Document(p)) == Obj([Field(CANDIDATES_KEY, Arr(Candidates(p))), Field(PROMPT_KEY, Str(p.prompt))])
  {
    var c := Arr(Candidates(p));
    hide Norm, WellFormed, NormFields, WellFormedFields, Candidates;
    CandidatesAreThemselves(p);
    StrIsItself(p.prompt);
    OneField(CANDIDATES_KEY, c);
    OneMoreField(PROMPT_KEY, Str(p.prompt), [Field(CANDIDATES_KEY, c)]);
    var fields := [Field(PROMPT_KEY, Str(p.prompt)), Field(CANDIDATES_KEY, c)];
    assert [Field(PROMPT_KEY, Str(p.prompt))] + [Field(CANDIDATES_KEY, c)] == fields;
    assert CANDIDATES_KEY[0] != PROMPT_KEY[0];
    ObjIs(fields);
    TwoSorted(fields[0], fields[1]);
  }

  lemma ObjIs(fields: seq<Field<Json>>)
    ensures WellFormed(Obj(fields)) == WellFormedFields(fields)
    ensures Norm(Obj(fields)) == Obj(Sorted(NormFields(fields)))
  {
  }

  lemma TwoSorted(x: Field<Json>, y: Field<Json>)
    requires x.key == PROMPT_KEY && y.key == CANDIDATES_KEY
    ensures Sorted([x, y]) == [y, x]
  {
    assert [x, y][1..] == [y] && [y][1..] == [];
    assert Sorted([y]) == Inserted(y, []) == [y];
    assert !Less(PROMPT_KEY, CANDIDATES_KEY) by { assert PROMPT_KEY[0] > CANDIDATES_KEY[0]; }
    assert Inserted(x, [y]) == [y] + Inserted(x, [y][1..]);
  }

  /** Two pairs have one fingerprint exactly when they are the same pair. */
  lemma FingerprintIff(sha: Text -> Text, p: Pair, q: Pair)
    requires Injective(sha)
    ensures Fingerprint(sha, p) == Fingerprint(sha, q) <==> SamePair(p, q)
  {
    hide Canon, Norm, WellFormed, Document, Candidates, Same;
    DocumentNorm(p);
    DocumentNorm(q);
    CanonIdentifies(Document(p), Document(q));
    SameIsSameNorm(Document(p), Document(q));
    CandidatesIff(p, q);
    var m, n := Norm(Document(p)).fields, Norm(Document(q)).fields;
    if m == n { assert m[0] == n[0] && m[1] == n[1]; }
  }
}
