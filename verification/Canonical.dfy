/** Canonical JSON: what every hash commits to. */
module Canonical {
  import opened JsText
  import opened Wrappers

  /**
   A JavaScript value as `canonicalStringify` meets it. A finite number is represented by the literal that
   `JSON.stringify` gives it, a bigint by its decimal digits; an object is its own enumerable entries in
   insertion order.
   */
  datatype Json =
    | Null
    | Undefined
    | Bool(b: bool)
    | Num(lit: Text)
    | BigInt(digits: Text)
    | Str(s: Text)
    | Arr(items: seq<Json>)
    | Obj(fields: seq<Field<Json>>)

  datatype Field<+T> = Field(key: Text, value: T)

  const COMMA: Unit := 0x2c
  const COLON: Unit := 0x3a
  const LBRACKET: Unit := 0x5b
  const RBRACKET: Unit := 0x5d
  const LBRACE: Unit := 0x7b
  const RBRACE: Unit := 0x7d
  const NULL_TEXT: Text := [0x6e, 0x75, 0x6c, 0x6c]
  const UNDEFINED_TEXT: Text := [0x75, 0x6e, 0x64, 0x65, 0x66, 0x69, 0x6e, 0x65, 0x64]
  const TRUE_TEXT: Text := [0x74, 0x72, 0x75, 0x65]
  const FALSE_TEXT: Text := [0x66, 0x61, 0x6c, 0x73, 0x65]

  function BoolText(b: bool): Text {
    if b then TRUE_TEXT else FALSE_TEXT
  }

  /** Units of a number literal: digits, sign, point, exponent. */
  predicate IsNumUnit(u: Unit) {
    0x30 <= u < 0x3a || u == 0x2d || u == 0x2b || u == 0x2e || u == 0x65
  }

  predicate IsNumber(lit: Text) {
    lit != [] && (lit[0] == 0x2d || 0x30 <= lit[0] < 0x3a) && forall u :: u in lit ==> IsNumUnit(u)
  }

  /** The tokens of JSON, spelled out. */
  lemma Tokens()
    ensures IsWord(NULL_TEXT, "null") && IsWord(TRUE_TEXT, "true") && IsWord(FALSE_TEXT, "false")
    ensures IsWord(UNDEFINED_TEXT, "undefined")
    ensures IsWord([LBRACKET, RBRACKET, LBRACE, RBRACE, COLON, COMMA, QUOTE, BACKSLASH], "[]{}:,\"\\")
  {
  }

  // ------------------------------------------------------------- the canonical text

  /** Array.sort by key. */
  function Inserted<T>(p: Field<T>, s: seq<Field<T>>): seq<Field<T>> {
    if s == [] then [p] else if Less(p.key, s[0].key) then [p] + s else [s[0]] + Inserted(p, s[1..])
  }

  function Sorted<T>(s: seq<Field<T>>): seq<Field<T>> {
    if s == [] then [] else Inserted(s[0], Sorted(s[1..]))
  }

  function JoinEntries(es: seq<Field<Text>>): Text {
    if es == [] then []
    else
      var first := Quote(es[0].key) + [COLON] + es[0].value;
      if |es| == 1 then first else first + [COMMA] + JoinEntries(es[1..])
  }

  /** `canonicalStringify`. Entries are printed before they are sorted; the sort looks at keys only. */
  function Canon(v: Json): Text
    decreases v
  {
    match v
    case Null => NULL_TEXT
    case Undefined => UNDEFINED_TEXT
    case BigInt(digits) => Quote(digits)
    case Bool(b) => BoolText(b)
    case Num(lit) => lit
    case Str(s) => Quote(s)
    case Arr(items) => [LBRACKET] + CanonItems(items) + [RBRACKET]
    case Obj(fields) => [LBRACE] + JoinEntries(Sorted(CanonEntries(fields))) + [RBRACE]
  }

  function CanonItems(items: seq<Json>): Text
    decreases items
  {
    if items == [] then []
    else if |items| == 1 then Canon(items[0])
    else Canon(items[0]) + [COMMA] + CanonItems(items[1..])
  }

  /** Fields that are undefined are left out. */
  function CanonEntries(fields: seq<Field<Json>>): seq<Field<Text>>
    decreases fields
  {
    if fields == [] then []
    else if fields[0].value == Undefined then CanonEntries(fields[1..])
    else [Field(fields[0].key, Canon(fields[0].value))] + CanonEntries(fields[1..])
  }

  // ------------------------------------------------------------- normal documents, printed as they stand

  /** The document a canonical text stands for: undefined fields dropped, keys sorted, bigints as strings. */
  function Norm(v: Json): Json
    decreases v
  {
    match v
    case BigInt(digits) => Str(digits)
    case Arr(items) => Arr(NormItems(items))
    case Obj(fields) => Obj(Sorted(NormFields(fields)))
    case _ => v
  }

  function NormItems(items: seq<Json>): seq<Json>
    decreases items
  {
    if items == [] then [] else [Norm(items[0])] + NormItems(items[1..])
  }

  function NormFields(fields: seq<Field<Json>>): seq<Field<Json>>
    decreases fields
  {
    if fields == [] then []
    else if fields[0].value == Undefined then NormFields(fields[1..])
    else [Field(fields[0].key, Norm(fields[0].value))] + NormFields(fields[1..])
  }

  function Print(v: Json): Text
    decreases v
  {
    match v
    case Null => NULL_TEXT
    case Undefined => UNDEFINED_TEXT
    case BigInt(digits) => Quote(digits)
    case Bool(b) => BoolText(b)
    case Num(lit) => lit
    case Str(s) => Quote(s)
    case Arr(items) => [LBRACKET] + PrintItems(items) + [RBRACKET]
    case Obj(fields) => [LBRACE] + JoinEntries(PrintFields(fields)) + [RBRACE]
  }

  function PrintItems(items: seq<Json>): Text
    decreases items
  {
    if items == [] then []
    else if |items| == 1 then Print(items[0])
    else Print(items[0]) + [COMMA] + PrintItems(items[1..])
  }

  function PrintFields(fields: seq<Field<Json>>): seq<Field<Text>>
    decreases fields
  {
    if fields == [] then [] else [Field(fields[0].key, Print(fields[0].value))] + PrintFields(fields[1..])
  }

  lemma {:induction false} PrintInserted(p: Field<Json>, s: seq<Field<Json>>)
    ensures PrintFields(Inserted(p, s)) == Inserted(Field(p.key, Print(p.value)), PrintFields(s))
  {
    hide Print, Less;
    if s != [] && !Less(p.key, s[0].key) {
      PrintInserted(p, s[1..]);
    }
  }

  lemma {:induction false} PrintSorted(s: seq<Field<Json>>)
    ensures PrintFields(Sorted(s)) == Sorted(PrintFields(s))
  {
    hide Print, Less, Inserted;
    if s != [] {
      PrintSorted(s[1..]);
      PrintInserted(s[0], Sorted(s[1..]));
    }
  }

  /** The canonical text is the normal document, printed. */
  lemma {:induction false} CanonPrintsNorm(v: Json)
    ensures Canon(v) == Print(Norm(v))
    decreases v
  {
    hide Sorted, Inserted, JoinEntries;
    match v
    case Arr(items) => CanonItemsPrintNorm(items);
    case Obj(fields) =>
      CanonEntriesPrintNorm(fields);
      PrintSorted(NormFields(fields));
    case _ =>
  }

  lemma {:induction false} CanonItemsPrintNorm(items: seq<Json>)
    ensures CanonItems(items) == PrintItems(NormItems(items))
    decreases items
  {
    if items != [] {
      CanonPrintsNorm(items[0]);
      CanonItemsPrintNorm(items[1..]);
      assert NormItems(items)[1..] == NormItems(items[1..]);
    }
  }

  lemma {:induction false} CanonEntriesPrintNorm(fields: seq<Field<Json>>)
    ensures CanonEntries(fields) == PrintFields(NormFields(fields))
    decreases fields
  {
    if fields != [] {
      CanonPrintsNorm(fields[0].value);
      CanonEntriesPrintNorm(fields[1..]);
      if fields[0].value != Undefined {
        assert NormFields(fields)[1..] == NormFields(fields[1..]);
      }
    }
  }

  // ------------------------------------------------------------- reading a canonical text back

  /** The longest run of number units, and what follows it. */
  function ReadNumber(t: Text): (r: (Text, Text))
    ensures |r.0| + |r.1| == |t| && (t != [] && IsNumUnit(t[0]) ==> |r.1| < |t|)
  {
    if t == [] || !IsNumUnit(t[0]) then ([], t)
    else var (lit, rest) := ReadNumber(t[1..]); ([t[0]] + lit, rest)
  }

  function ReadToken(token: Text, v: Json, t: Text): Option<(Json, Text)> {
    if token <= t then Some((v, t[|token|..])) else None
  }

  function ReadValue(t: Text): (r: Option<(Json, Text)>)
    ensures r.Some? ==> |r.value.1| < |t|
    decreases |t|, 1
  {
    if t == [] then None
    else if t[0] == 0x6e then ReadToken(NULL_TEXT, Null, t)
    else if t[0] == 0x75 then ReadToken(UNDEFINED_TEXT, Undefined, t)
    else if t[0] == 0x74 then ReadToken(TRUE_TEXT, Bool(true), t)
    else if t[0] == 0x66 then ReadToken(FALSE_TEXT, Bool(false), t)
    else if t[0] == QUOTE then
      match ReadString(t[1..])
      case None => None
      case Some((s, rest)) => Some((Str(s), rest))
    else if t[0] == LBRACKET then
      if |t| > 1 && t[1] == RBRACKET then Some((Arr([]), t[2..])) else
      match ReadItems(t[1..])
      case None => None
      case Some((items, rest)) => Some((Arr(items), rest))
    else if t[0] == LBRACE then
      if |t| > 1 && t[1] == RBRACE then Some((Obj([]), t[2..])) else
      match ReadFields(t[1..])
      case None => None
      case Some((fields, rest)) => Some((Obj(fields), rest))
    else if IsNumUnit(t[0]) then
      var (lit, rest) := ReadNumber(t);
      Some((Num(lit), rest))
    else None
  }

  /** At least one item, up to the closing bracket. */
  function ReadItems(t: Text): (r: Option<(seq<Json>, Text)>)
    ensures r.Some? ==> |r.value.1| < |t|
    decreases |t|, 2
  {
    match ReadValue(t)
    case None => None
    case Some((v, rest)) =>
      if rest == [] then None
      else if rest[0] == RBRACKET then Some(([v], rest[1..]))
      else if rest[0] != COMMA then None
      else
        match ReadItems(rest[1..])
        case None => None
        case Some((vs, rest')) => Some(([v] + vs, rest'))
  }

  /** A quoted key, a colon and a value. */
  function ReadField(t: Text): (r: Option<(Field<Json>, Text)>)
    ensures r.Some? ==> |r.value.1| < |t|
    decreases |t|, 2
  {
    if t == [] || t[0] != QUOTE then None else
    match ReadString(t[1..])
    case None => None
    case Some((key, rest)) =>
      if rest == [] || rest[0] != COLON then None else
      match ReadValue(rest[1..])
      case None => None
      case Some((v, rest')) => Some((Field(key, v), rest'))
  }

  /** At least one field, up to the closing brace. */
  function ReadFields(t: Text): (r: Option<(seq<Field<Json>>, Text)>)
    ensures r.Some? ==> |r.value.1| < |t|
    decreases |t|, 3
  {
    match ReadField(t)
    case None => None
    case Some((f, rest)) =>
      if rest == [] then None
      else if rest[0] == RBRACE then Some(([f], rest[1..]))
      else if rest[0] != COMMA then None
      else
        match ReadFields(rest[1..])
        case None => None
        case Some((fs, rest')) => Some(([f] + fs, rest'))
  }

  /** No bigint, no undefined field, and every number prints as a number: what Norm produces. */
  predicate Normal(v: Json)
    decreases v
  {
    match v
    case BigInt(_) => false
    case Num(lit) => IsNumber(lit)
    case Arr(items) => NormalItems(items)
    case Obj(fields) => NormalFields(fields)
    case _ => true
  }

  predicate NormalItems(items: seq<Json>)
    decreases items
  {
    items == [] || (Normal(items[0]) && NormalItems(items[1..]))
  }

  predicate NormalFields(fields: seq<Field<Json>>)
    decreases fields
  {
    fields == [] || (Normal(fields[0].value) && NormalFields(fields[1..]))
  }

  /** A number is followed by something that ends it. */
  predicate EndsNumber(rest: Text) {
    rest == [] || !IsNumUnit(rest[0])
  }

  lemma {:induction false} NumberReads(lit: Text, rest: Text)
    requires (forall u :: u in lit ==> IsNumUnit(u)) && EndsNumber(rest)
    ensures ReadNumber(lit + rest) == (lit, rest)
  {
    hide IsNumUnit;
    if lit == [] {
      assert lit + rest == rest;
    } else {
      assert lit[0] in lit && (lit + rest)[1..] == lit[1..] + rest;
      NumberReads(lit[1..], rest);
      assert lit == [lit[0]] + lit[1..];
    }
  }

  lemma TokenReads(token: Text, v: Json, rest: Text)
    ensures ReadToken(token, v, token + rest) == Some((v, rest))
  {
    assert (token + rest)[|token|..] == rest;
  }

  lemma StringReads(s: Text, rest: Text)
    ensures Quote(s) + rest != [] && (Quote(s) + rest)[0] == QUOTE
    ensures ReadString((Quote(s) + rest)[1..]) == Some((s, rest))
  {
    hide ReadString, Escape;
    assert (Quote(s) + rest)[1..] == Escape(s) + [QUOTE] + rest;
    QuoteReads(s, rest);
  }

  /** No printed value begins with a closing bracket or brace. */
  lemma PrintStarts(v: Json)
    requires Normal(v)
    ensures Print(v) != [] && Print(v)[0] != RBRACKET && Print(v)[0] != RBRACE
  {
    hide Escape, JoinEntries;
    match v
    case Num(lit) =>
      assert lit[0] in lit;
    case _ =>
  }

  lemma AtomReads(v: Json, rest: Text)
    requires Normal(v) && !v.Arr? && !v.Obj? && EndsNumber(rest)
    ensures ReadValue(Print(v) + rest) == Some((v, rest))
  {
    hide ReadString, Escape, ReadToken, ReadItems, ReadFields, ReadNumber;
    match v
    case Null => TokenReads(NULL_TEXT, v, rest);
    case Undefined => TokenReads(UNDEFINED_TEXT, v, rest);
    case Bool(b) => TokenReads(BoolText(b), v, rest);
    case Num(lit) =>
      assert lit[0] in lit;
      NumberReads(lit, rest);
    case Str(s) => StringReads(s, rest);
  }

  /** Every normal document reads back, whatever follows it. */
  lemma {:induction false} PrintReads(v: Json, rest: Text)
    requires Normal(v) && EndsNumber(rest)
    ensures ReadValue(Print(v) + rest) == Some((v, rest))
    decreases v, 0
  {
    match v
    case Arr(items) => ArrayReads(items, rest);
    case Obj(fields) => ObjectReads(fields, rest);
    case _ => AtomReads(v, rest);
  }

  lemma {:induction false} ArrayReads(items: seq<Json>, rest: Text)
    requires NormalItems(items)
    ensures ReadValue([LBRACKET] + PrintItems(items) + [RBRACKET] + rest) == Some((Arr(items), rest))
    decreases items, 1
  {
    hide ReadItems, ReadFields, ReadString, ReadNumber, ReadToken;
    var t := [LBRACKET] + PrintItems(items) + [RBRACKET] + rest;
    if items == [] {
      assert t[1] == RBRACKET && t[2..] == rest;
    } else {
      ItemsRead(items, rest);
      PrintStarts(items[0]);
      assert PrintItems(items)[0] == Print(items[0])[0];
      assert t[1..] == PrintItems(items) + [RBRACKET] + rest;
      assert t[1] != RBRACKET;
    }
  }

  lemma Regroup(a: Text, b: Text, c: Text, d: Text, e: Text)
    ensures a + b + c + d + e == a + (b + (c + d + e))
  {
  }

  lemma LastItem(t: Text, v: Json, rest: Text)
    requires ReadValue(t) == Some((v, [RBRACKET] + rest))
    ensures ReadItems(t) == Some(([v], rest))
  {
    hide ReadValue;
    assert ([RBRACKET] + rest)[1..] == rest;
  }

  lemma NextItem(t: Text, v: Json, tail: Text, items: seq<Json>, rest: Text)
    requires ReadValue(t) == Some((v, [COMMA] + tail)) && ReadItems(tail) == Some((items, rest))
    ensures ReadItems(t) == Some(([v] + items, rest))
  {
    hide ReadValue;
    assert ([COMMA] + tail)[1..] == tail;
  }

  lemma {:induction false} ItemsRead(items: seq<Json>, rest: Text)
    requires NormalItems(items) && items != []
    ensures ReadItems(PrintItems(items) + [RBRACKET] + rest) == Some((items, rest))
    decreases items, 0
  {
    hide ReadValue, Print, ReadItems;
    var t := PrintItems(items) + [RBRACKET] + rest;
    if |items| == 1 {
      PrintReads(items[0], [RBRACKET] + rest);
      assert t == Print(items[0]) + ([RBRACKET] + rest);
      LastItem(t, items[0], rest);
      assert items == [items[0]];
    } else {
      var tail := PrintItems(items[1..]) + [RBRACKET] + rest;
      ItemsRead(items[1..], rest);
      PrintReads(items[0], [COMMA] + tail);
      Regroup(Print(items[0]), [COMMA], PrintItems(items[1..]), [RBRACKET], rest);
      NextItem(t, items[0], tail, items[1..], rest);
      assert items == [items[0]] + items[1..];
    }
  }

  lemma {:induction false} ObjectReads(fields: seq<Field<Json>>, rest: Text)
    requires NormalFields(fields)
    ensures ReadValue([LBRACE] + JoinEntries(PrintFields(fields)) + [RBRACE] + rest) == Some((Obj(fields), rest))
    decreases fields, 1
  {
    hide ReadItems, ReadFields, ReadString, ReadNumber, ReadToken, Escape;
    var t := [LBRACE] + JoinEntries(PrintFields(fields)) + [RBRACE] + rest;
    if fields == [] {
      assert t[1] == RBRACE && t[2..] == rest;
    } else {
      FieldsRead(fields, rest);
      assert JoinEntries(PrintFields(fields))[0] == QUOTE;
      assert t[1..] == JoinEntries(PrintFields(fields)) + [RBRACE] + rest;
    }
  }

  lemma {:induction false} FieldsRead(fields: seq<Field<Json>>, rest: Text)
    requires NormalFields(fields) && fields != []
    ensures ReadFields(JoinEntries(PrintFields(fields)) + [RBRACE] + rest) == Some((fields, rest))
    decreases fields, 0
  {
    hide ReadField, Print, Quote;
    var f, es := fields[0], PrintFields(fields);
    var first := Quote(f.key) + [COLON] + Print(f.value);
    var t := JoinEntries(es) + [RBRACE] + rest;
    if |fields| == 1 {
      FieldReads(f, [RBRACE] + rest);
      assert PrintFields(fields[1..]) == [];
      assert es == [Field(f.key, Print(f.value))];
      assert t == first + ([RBRACE] + rest) && ([RBRACE] + rest)[1..] == rest;
      assert fields == [f];
    } else {
      var tail := JoinEntries(PrintFields(fields[1..])) + [RBRACE] + rest;
      FieldsRead(fields[1..], rest);
      FieldReads(f, [COMMA] + tail);
      assert es[1..] == PrintFields(fields[1..]);
      Regroup(first, [COMMA], JoinEntries(PrintFields(fields[1..])), [RBRACE], rest);
      assert ([COMMA] + tail)[1..] == tail;
      assert fields == [f] + fields[1..];
    }
  }

  lemma {:induction false} FieldReads(f: Field<Json>, rest: Text)
    requires Normal(f.value) && EndsNumber(rest)
    ensures ReadField(Quote(f.key) + [COLON] + Print(f.value) + rest) == Some((f, rest))
    decreases f.value, 1
  {
    hide ReadString, Print, Quote, ReadValue;
    var tail := [COLON] + Print(f.value) + rest;
    PrintReads(f.value, rest);
    StringReads(f.key, tail);
    assert Quote(f.key) + [COLON] + Print(f.value) + rest == Quote(f.key) + tail;
    assert tail[1..] == Print(f.value) + rest;
  }

  // ------------------------------------------------------------- which values share a text

  /** A JavaScript value: object keys are distinct, numbers print as number literals. */
  predicate WellFormed(v: Json)
    decreases v
  {
    match v
    case Num(lit) => IsNumber(lit)
    case Arr(items) => WellFormedItems(items)
    case Obj(fields) => WellFormedFields(fields)
    case _ => true
  }

  predicate WellFormedItems(items: seq<Json>)
    decreases items
  {
    items == [] || (WellFormed(items[0]) && WellFormedItems(items[1..]))
  }

  predicate WellFormedFields(fields: seq<Field<Json>>)
    decreases fields
  {
    fields == [] ||
    (WellFormed(fields[0].value) && (forall f :: f in fields[1..] ==> f.key != fields[0].key)
     && WellFormedFields(fields[1..]))
  }

  /**
   The same logical document: arrays agree item by item, objects as maps from keys to values, whatever the order
   of their keys; an undefined field is an absent one, and a bigint is its decimal string.
   */
  ghost predicate Same(v: Json, w: Json)
    decreases v
  {
    match v
    case BigInt(digits) => w == BigInt(digits) || w == Str(digits)
    case Str(s) => w == BigInt(s) || w == Str(s)
    case Arr(items) => w.Arr? && SameItems(items, w.items)
    case Obj(fields) => w.Obj? && Within(fields, w.fields) && Covers(fields, w.fields)
    case _ => w == v
  }

  ghost predicate SameItems(a: seq<Json>, b: seq<Json>)
    decreases a
  {
    if a == [] then b == [] else b != [] && Same(a[0], b[0]) && SameItems(a[1..], b[1..])
  }

  /** Every defined field of a has a partner in b. */
  ghost predicate Within(a: seq<Field<Json>>, b: seq<Field<Json>>)
    decreases a
  {
    a == [] ||
    ((a[0].value == Undefined
      || exists g :: g in b && g.key == a[0].key && g.value != Undefined && Same(a[0].value, g.value))
     && Within(a[1..], b))
  }

  /** Every defined field of b has its key among the defined fields of a. */
  ghost predicate Covers(a: seq<Field<Json>>, b: seq<Field<Json>>) {
    forall g :: g in b && g.value != Undefined ==> exists f :: f in a && f.key == g.key && f.value != Undefined
  }

  // sorted fields

  ghost predicate Above<T(!new)>(key: Text, s: seq<Field<T>>) {
    forall f :: f in s ==> Less(key, f.key)
  }

  ghost predicate Avoids<T(!new)>(key: Text, s: seq<Field<T>>) {
    forall f :: f in s ==> f.key != key
  }

  ghost predicate Ordered<T(!new)>(s: seq<Field<T>>) {
    s == [] || (Ordered(s[1..]) && Above(s[0].key, s[1..]))
  }

  ghost predicate DistinctKeys<T(!new)>(s: seq<Field<T>>) {
    s == [] || (DistinctKeys(s[1..]) && Avoids(s[0].key, s[1..]))
  }

  lemma {:induction false} InsertedHas<T(!new)>(p: Field<T>, s: seq<Field<T>>)
    ensures forall f :: f in Inserted(p, s) <==> f == p || f in s
  {
    hide Less;
    if s != [] {
      InsertedHas(p, s[1..]);
      assert s == [s[0]] + s[1..];
    }
  }

  lemma {:induction false} SortedHas<T(!new)>(s: seq<Field<T>>)
    ensures forall f :: f in Sorted(s) <==> f in s
  {
    hide Inserted;
    if s != [] {
      SortedHas(s[1..]);
      InsertedHas(s[0], Sorted(s[1..]));
      assert s == [s[0]] + s[1..];
    }
  }

  lemma AboveAll<T(!new)>(key: Text, s: seq<Field<T>>)
    requires s != [] && Less(key, s[0].key) && Above(s[0].key, s[1..])
    ensures Above(key, s)
  {
    hide Less;
    forall f | f in s
      ensures Less(key, f.key)
    {
      assert s == [s[0]] + s[1..];
      if f in s[1..] { LessIsTransitive(key, s[0].key, f.key); }
    }
  }

  lemma AvoidsTail<T(!new)>(key: Text, s: seq<Field<T>>)
    requires s != [] && Avoids(key, s)
    ensures s[0].key != key && Avoids(key, s[1..])
  {
    assert s[0] in s && s == [s[0]] + s[1..];
  }

  lemma AboveInserted<T(!new)>(key: Text, p: Field<T>, s: seq<Field<T>>)
    requires Less(key, p.key) && Above(key, s)
    ensures Above(key, Inserted(p, s))
  {
    hide Less;
    InsertedHas(p, s);
  }

  lemma {:induction false} InsertedOrdered<T(!new)>(p: Field<T>, s: seq<Field<T>>)
    requires Ordered(s) && Avoids(p.key, s)
    ensures Ordered(Inserted(p, s))
  {
    hide Less, Above, Avoids;
    var r := Inserted(p, s);
    if s == [] {
      NoneAbove<T>(p.key);
    } else if Less(p.key, s[0].key) {
      assert r[1..] == s;
      AboveAll(p.key, s);
    } else {
      AvoidsTail(p.key, s);
      LessIsTotal(p.key, s[0].key);
      InsertedOrdered(p, s[1..]);
      AboveInserted(s[0].key, p, s[1..]);
      assert r[1..] == Inserted(p, s[1..]);
    }
  }

  lemma NoneAbove<T(!new)>(key: Text)
    ensures Above<T>(key, []) && forall p: Field<T> :: Ordered([p])
  {
  }

  lemma {:induction false} SortedOrdered<T(!new)>(s: seq<Field<T>>)
    requires DistinctKeys(s)
    ensures Ordered(Sorted(s))
  {
    hide Inserted, Ordered;
    if s == [] {
      assert Ordered<T>([]) by { OrderedNone<T>(); }
    } else {
      SortedOrdered(s[1..]);
      SortedHas(s[1..]);
      assert Avoids(s[0].key, Sorted(s[1..]));
      InsertedOrdered(s[0], Sorted(s[1..]));
    }
  }

  lemma OrderedNone<T(!new)>()
    ensures Ordered<T>([])
  {
  }

  ghost predicate SameMembers<T(!new)>(a: seq<Field<T>>, b: seq<Field<T>>) {
    forall f :: f in a <==> f in b
  }

  lemma HeadsAgree<T(!new)>(a: seq<Field<T>>, b: seq<Field<T>>)
    requires Ordered(a) && Ordered(b) && SameMembers(a, b) && a != []
    ensures b != [] && a[0] == b[0] && SameMembers(a[1..], b[1..])
  {
    hide Less;
    assert a[0] in a && a[0] in b && b[0] in a;
    assert a == [a[0]] + a[1..] && b == [b[0]] + b[1..];
    LessIsStrict(a[0].key, b[0].key);
    LessIsStrict(a[0].key, a[0].key);
    forall f
      ensures f in a[1..] <==> f in b[1..]
    {
      assert f in a <==> f in b;
    }
  }

  /** Only one ordered list has given members. */
  lemma {:induction false} OrderedIsUnique<T(!new)>(a: seq<Field<T>>, b: seq<Field<T>>)
    requires Ordered(a) && Ordered(b) && SameMembers(a, b)
    ensures a == b
  {
    if a == [] {
      if b != [] { HeadsAgree(b, a); }
    } else {
      HeadsAgree(a, b);
      OrderedIsUnique(a[1..], b[1..]);
      assert a == [a[0]] + a[1..] && b == [b[0]] + b[1..];
    }
  }

  // normal fields

  ghost predicate NormOf(p: Field<Json>, f: Field<Json>) {
    f.value != Undefined && p == Field(f.key, Norm(f.value))
  }

  lemma {:induction false} NormFieldsHas(fields: seq<Field<Json>>)
    ensures forall p :: p in NormFields(fields) <==> exists f :: f in fields && NormOf(p, f)
  {
    hide NormOf;
    if fields != [] {
      var rest := fields[1..];
      NormFieldsHas(rest);
      assert fields == [fields[0]] + rest;
      forall p
        ensures p in NormFields(fields) <==> exists f :: f in fields && NormOf(p, f)
      {
        NormFieldsCons(fields, p);
        if exists f :: f in fields && NormOf(p, f) {
          var f :| f in fields && NormOf(p, f);
          assert f == fields[0] || f in rest;
        }
      }
    }
  }

  lemma NormFieldsCons(fields: seq<Field<Json>>, p: Field<Json>)
    requires fields != []
    ensures p in NormFields(fields) <==> NormOf(p, fields[0]) || p in NormFields(fields[1..])
  {
  }

  lemma {:induction false} NormKeysDistinct(fields: seq<Field<Json>>)
    requires WellFormedFields(fields)
    ensures DistinctKeys(NormFields(fields))
  {
    hide Norm;
    if fields != [] {
      NormKeysDistinct(fields[1..]);
      NormFieldsHas(fields[1..]);
      if fields[0].value != Undefined {
        var r := NormFields(fields);
        assert r[1..] == NormFields(fields[1..]);
        assert Avoids(r[0].key, r[1..]);
      }
    }
  }

  lemma {:induction false} DistinctMeansUnique<T(!new)>(s: seq<Field<T>>, p: Field<T>, q: Field<T>)
    requires DistinctKeys(s) && p in s && q in s && p.key == q.key
    ensures p == q
  {
    assert s == [s[0]] + s[1..];
    if p in s[1..] && q in s[1..] { DistinctMeansUnique(s[1..], p, q); }
  }

  lemma {:induction false} WellFormedMember(fields: seq<Field<Json>>, f: Field<Json>)
    requires WellFormedFields(fields) && f in fields
    ensures WellFormed(f.value)
  {
    hide WellFormed;
    assert fields == [fields[0]] + fields[1..];
    if f != fields[0] { WellFormedMember(fields[1..], f); }
  }

  /** Being the same document is having the same normal form. */
  lemma {:induction false} SameIsSameNorm(v: Json, w: Json)
    requires WellFormed(v) && WellFormed(w)
    ensures Same(v, w) <==> Norm(v) == Norm(w)
    decreases v, 2
  {
    hide Within, Covers, Sorted, NormFields;
    match v
    case Arr(items) =>
      if w.Arr? { SameItemsAreSameNorm(items, w.items); }
    case Obj(fields) =>
      if w.Obj? {
        SameFieldsAreSameMembers(fields, w.fields);
        SortedAgree(fields, w.fields);
      }
    case _ =>
  }

  lemma {:induction false} SameItemsAreSameNorm(a: seq<Json>, b: seq<Json>)
    requires WellFormedItems(a) && WellFormedItems(b)
    ensures SameItems(a, b) <==> NormItems(a) == NormItems(b)
    decreases a
  {
    hide Same, Norm;
    if a != [] && b != [] {
      SameIsSameNorm(a[0], b[0]);
      SameItemsAreSameNorm(a[1..], b[1..]);
      assert NormItems(a)[1..] == NormItems(a[1..]) && NormItems(b)[1..] == NormItems(b[1..]);
    }
  }

  lemma SortedAgree(a: seq<Field<Json>>, b: seq<Field<Json>>)
    requires WellFormedFields(a) && WellFormedFields(b)
    ensures SameMembers(NormFields(a), NormFields(b)) <==> Sorted(NormFields(a)) == Sorted(NormFields(b))
  {
    hide Sorted, NormFields, WellFormedFields;
    var p, q := NormFields(a), NormFields(b);
    NormKeysDistinct(a);
    NormKeysDistinct(b);
    SortedOrdered(p);
    SortedOrdered(q);
    SortedHas(p);
    SortedHas(q);
    if SameMembers(p, q) {
      assert SameMembers(Sorted(p), Sorted(q));
      OrderedIsUnique(Sorted(p), Sorted(q));
    }
  }

  /** a's defined field f has a partner in b exactly when its normal field is among b's. */
  lemma {:induction false} PartnerIsMember(f: Field<Json>, b: seq<Field<Json>>)
    requires WellFormed(f.value) && WellFormedFields(b) && f.value != Undefined
    ensures (exists g :: g in b && g.key == f.key && g.value != Undefined && Same(f.value, g.value))
            <==> Field(f.key, Norm(f.value)) in NormFields(b)
    decreases f.value, 3
  {
    hide Same, Norm, NormFields, WellFormed, WellFormedFields;
    NormFieldsHas(b);
    var p := Field(f.key, Norm(f.value));
    forall g | g in b && g.key == f.key && g.value != Undefined
      ensures Same(f.value, g.value) <==> NormOf(p, g)
    {
      WellFormedMember(b, g);
      SameIsSameNorm(f.value, g.value);
    }
  }

  lemma {:induction false} WithinIsSubset(a: seq<Field<Json>>, b: seq<Field<Json>>)
    requires WellFormedFields(a) && WellFormedFields(b)
    ensures Within(a, b) <==> forall p :: p in NormFields(a) ==> p in NormFields(b)
    decreases a, 0
  {
    hide Same, Norm, WellFormed;
    if a != [] {
      WithinIsSubset(a[1..], b);
      if a[0].value != Undefined {
        PartnerIsMember(a[0], b);
        var p := Field(a[0].key, Norm(a[0].value));
        assert p in NormFields(a);
        assert NormFields(a) == [p] + NormFields(a[1..]);
      }
    }
  }

  lemma {:induction false} SameFieldsAreSameMembers(a: seq<Field<Json>>, b: seq<Field<Json>>)
    requires WellFormedFields(a) && WellFormedFields(b)
    ensures Within(a, b) && Covers(a, b) <==> SameMembers(NormFields(a), NormFields(b))
    decreases a, 1
  {
    hide Within, NormFields, Norm, WellFormedFields;
    WithinIsSubset(a, b);
    NormFieldsHas(a);
    NormFieldsHas(b);
    NormKeysDistinct(b);
    var p, q := NormFields(a), NormFields(b);
    if Within(a, b) && Covers(a, b) {
      forall y | y in q
        ensures y in p
      {
        var g :| g in b && NormOf(y, g);
        var f :| f in a && f.key == g.key && f.value != Undefined;
        var x := Field(f.key, Norm(f.value));
        assert NormOf(x, f);
        DistinctMeansUnique(q, x, y);
      }
    }
    if SameMembers(p, q) {
      forall g | g in b && g.value != Undefined
        ensures exists f :: f in a && f.key == g.key && f.value != Undefined
      {
        var y := Field(g.key, Norm(g.value));
        assert NormOf(y, g) && y in q && y in p;
        var f :| f in a && NormOf(y, f);
      }
    }
  }

  // ------------------------------------------------------------- the theorems

  lemma {:induction false} NormIsNormal(v: Json)
    requires WellFormed(v)
    ensures Normal(Norm(v))
    decreases v
  {
    hide Sorted;
    match v
    case Arr(items) => NormItemsNormal(items);
    case Obj(fields) =>
      NormFieldsNormal(fields);
      SortedNormal(NormFields(fields));
    case _ =>
  }

  lemma {:induction false} NormItemsNormal(items: seq<Json>)
    requires WellFormedItems(items)
    ensures NormalItems(NormItems(items))
    decreases items
  {
    if items != [] {
      NormIsNormal(items[0]);
      NormItemsNormal(items[1..]);
      assert NormItems(items)[1..] == NormItems(items[1..]);
    }
  }

  lemma {:induction false} NormFieldsNormal(fields: seq<Field<Json>>)
    requires WellFormedFields(fields)
    ensures NormalFields(NormFields(fields))
    decreases fields
  {
    if fields != [] {
      NormIsNormal(fields[0].value);
      NormFieldsNormal(fields[1..]);
      if fields[0].value != Undefined {
        assert NormFields(fields)[1..] == NormFields(fields[1..]);
      }
    }
  }

  lemma {:induction false} InsertedNormal(p: Field<Json>, s: seq<Field<Json>>)
    requires Normal(p.value) && NormalFields(s)
    ensures NormalFields(Inserted(p, s))
  {
    hide Normal, Less;
    if s != [] && !Less(p.key, s[0].key) {
      InsertedNormal(p, s[1..]);
      assert Inserted(p, s)[1..] == Inserted(p, s[1..]);
    } else {
      assert Inserted(p, s)[1..] == s;
    }
  }

  lemma {:induction false} SortedNormal(s: seq<Field<Json>>)
    requires NormalFields(s)
    ensures NormalFields(Sorted(s))
  {
    hide Normal, Inserted;
    if s != [] {
      SortedNormal(s[1..]);
      InsertedNormal(s[0], Sorted(s[1..]));
    }
  }

  /** A reader gets the document back from its canonical text: undefined fields dropped, keys in order. */
  lemma CanonReadsBack(v: Json)
    requires WellFormed(v)
    ensures ReadValue(Canon(v)) == Some((Norm(v), []))
  {
    hide ReadValue, Canon, Norm, Print, Normal;
    CanonPrintsNorm(v);
    NormIsNormal(v);
    PrintReads(Norm(v), []);
    assert Print(Norm(v)) + [] == Print(Norm(v));
  }

  /** Two values have one canonical text exactly when they are the same logical document. */
  lemma CanonIdentifies(v: Json, w: Json)
    requires WellFormed(v) && WellFormed(w)
    ensures Canon(v) == Canon(w) <==> Same(v, w)
  {
    hide ReadValue, Canon, Norm, Print, Same, WellFormed;
    CanonReadsBack(v);
    CanonReadsBack(w);
    CanonPrintsNorm(v);
    CanonPrintsNorm(w);
    SameIsSameNorm(v, w);
  }

  // ------------------------------------------------------------- hashes of documents

  /** No two texts in use have one hash. */
  ghost predicate Injective(sha: Text -> Text) {
    forall a: Text, b: Text :: sha(a) == sha(b) ==> a == b
  }

  lemma OneField(key: Text, v: Json)
    requires WellFormed(v) && v != Undefined
    ensures WellFormedFields([Field(key, v)]) && NormFields([Field(key, v)]) == [Field(key, Norm(v))]
  {
    hide Norm, WellFormed;
    assert [Field(key, v)][1..] == [];
    assert NormFields([]) == [];
  }

  /** A field in front of others with other keys. */
  lemma OneMoreField(key: Text, v: Json, rest: seq<Field<Json>>)
    requires WellFormed(v) && v != Undefined && WellFormedFields(rest)
    requires forall f :: f in rest ==> f.key != key
    ensures WellFormedFields([Field(key, v)] + rest)
    ensures NormFields([Field(key, v)] + rest) == [Field(key, Norm(v))] + NormFields(rest)
  {
    hide Norm, WellFormed;
    assert ([Field(key, v)] + rest)[1..] == rest;
  }

  lemma StrIsItself(s: Text)
    ensures Norm(Str(s)) == Str(s) && WellFormed(Str(s))
  {
  }
}
