/** JSON values, and exactJson: the canonical printer whose texts the recovery compares. */
module ExactJson {
  import opened Numerals
  import opened Sequences
  import opened Sorting

  /** A UTF-16 code unit. */
  type Unit = n: int | 0 <= n < 0x10000
  type Text = seq<Unit>

  /** A finite number other than a safe integer is known by the text that Number.prototype.toString gives it. */
  datatype Number =
    | Integer(value: int)
    | NegativeZero
    | Inexact(text: Text)
    | NonFinite(positive: bool) // what JSON.parse makes of 1e999

  datatype Field = Field(key: Text, value: Json)

  datatype Json =
    | Null
    | Boolean(on: bool)
    | Numeric(number: Number)
    | Chars(text: Text)
    | Array(items: seq<Json>)
    | Object(fields: seq<Field>)

  const QUOTE: Unit := 34
  const COMMA: Unit := 44
  const COLON: Unit := 58
  const BACKSLASH: Unit := 92
  const NULL_TEXT: Text := [110, 117, 108, 108]
  const TRUE_TEXT: Text := [116, 114, 117, 101]
  const FALSE_TEXT: Text := [102, 97, 108, 115, 101]
  const MAX_SAFE := 9007199254740991

  predicate Safe(n: int) {
    -MAX_SAFE <= n <= MAX_SAFE
  }

  // ----- numbers

  function Digits(n: nat): (r: Text)
    ensures r != [] && forall c :: c in r ==> 48 <= c <= 57
  {
    var d := Decimals(n);
    seq(|d|, i requires 0 <= i < |d| => 48 + d[i])
  }

  function Decimal(n: int): Text {
    if n < 0 then [45] + Digits(-n) else Digits(n)
  }

  /** A code unit that can occur in the text of a number: digits, sign, point and exponent mark. */
  predicate NumberUnit(c: Unit) {
    48 <= c <= 57 || c == 43 || c == 45 || c == 46 || c == 101
  }

  predicate NumberLike(t: Text) {
    t != [] && (48 <= t[0] <= 57 || t[0] == 45) && forall c :: c in t ==> NumberUnit(c)
  }

  ghost predicate WellFormedNumber(n: Number) {
    match n
    case Integer(value) => Safe(value)
    case Inexact(text) => NumberLike(text) && forall v :: Safe(v) ==> Decimal(v) != text
    case _ => true
  }

  function NumberText(n: Number): Text {
    match n
    case Integer(value) => Decimal(value)
    case NegativeZero => [48]
    case Inexact(text) => text
    case NonFinite(_) => NULL_TEXT
  }

  // ----- strings

  function Hex(d: int): Unit
    requires 0 <= d < 16
  {
    if d < 10 then 48 + d else 87 + d
  }

  function Hex4(u: Unit): Text {
    [Hex(u / 0x1000), Hex(u / 0x100 % 16), Hex(u / 16 % 16), Hex(u % 16)]
  }

  predicate High(u: Unit) {
    0xD800 <= u <= 0xDBFF
  }

  predicate Low(u: Unit) {
    0xDC00 <= u <= 0xDFFF
  }

  predicate LoneSurrogate(s: Text, i: nat)
    requires i < |s|
  {
    || (High(s[i]) && (i + 1 == |s| || !Low(s[i + 1])))
    || (Low(s[i]) && (i == 0 || !High(s[i - 1])))
  }

  /** What JSON.stringify writes for one code unit of a string. */
  function Token(s: Text, i: nat): (r: Text)
    requires i < |s|
    ensures r != [] && r[0] != QUOTE
  {
    var u := s[i];
    if u == QUOTE then [BACKSLASH, QUOTE]
    else if u == BACKSLASH then [BACKSLASH, BACKSLASH]
    else if u == 8 then [BACKSLASH, 98]
    else if u == 9 then [BACKSLASH, 116]
    else if u == 10 then [BACKSLASH, 110]
    else if u == 12 then [BACKSLASH, 102]
    else if u == 13 then [BACKSLASH, 114]
    else if u < 32 || LoneSurrogate(s, i) then [BACKSLASH, 117] + Hex4(u)
    else [u]
  }

  function Escaped(s: Text, i: nat): Text
    requires i <= |s|
    decreases |s| - i
  {
    if i == |s| then [] else Token(s, i) + Escaped(s, i + 1)
  }

  function Quoted(s: Text): Text {
    [QUOTE] + Escaped(s, 0) + [QUOTE]
  }

  // ----- values

  /** A key with the printed text of its value. */
  datatype Entry = Entry(key: Text, text: Text)

  predicate TextLe(s: Text, t: Text) {
    s == [] || (t != [] && (s[0] < t[0] || (s[0] == t[0] && TextLe(s[1..], t[1..]))))
  }

  function KeyLe(): (Entry, Entry) -> bool {
    (a: Entry, b: Entry) => TextLe(a.key, b.key)
  }

  function EntryText(e: Entry): Text {
    Quoted(e.key) + [COLON] + e.text
  }

  function Join(parts: seq<Text>): Text {
    if parts == [] then []
    else if |parts| == 1 then parts[0]
    else parts[0] + [COMMA] + Join(parts[1..])
  }

  /** exactJson: keys in code unit order, no white space. */
  function Print(v: Json): Text {
    match v
    case Null => NULL_TEXT
    case Boolean(on) => if on then TRUE_TEXT else FALSE_TEXT
    case Numeric(n) => NumberText(n)
    case Chars(text) => Quoted(text)
    case Array(items) => [91] + Join(seq(|items|, i requires 0 <= i < |items| => Print(items[i]))) + [93]
    case Object(fields) =>
        [123] + Join(Map(Sort(seq(|fields|, i requires 0 <= i < |fields| =>
        Entry(fields[i].key, Print(fields[i].value))), KeyLe()), EntryText)) + [125]
  }

  function Parts(items: seq<Json>): (r: seq<Text>)
    ensures |r| == |items| && forall i :: 0 <= i < |r| ==> r[i] == Print(items[i])
  {
    seq(|items|, i requires 0 <= i < |items| => Print(items[i]))
  }

  function Entries(fields: seq<Field>): (r: seq<Entry>)
    ensures |r| == |fields| && forall i :: 0 <= i < |r| ==> r[i] == Entry(fields[i].key, Print(fields[i].value))
  {
    seq(|fields|, i requires 0 <= i < |fields| => Entry(fields[i].key, Print(fields[i].value)))
  }

  predicate DistinctKeys(fields: seq<Field>) {
    forall i, j :: 0 <= i < j < |fields| ==> fields[i].key != fields[j].key
  }

  /** No object repeats a key, and numbers are in their normal form. */
  ghost predicate WellFormed(v: Json) {
    match v
    case Numeric(n) => WellFormedNumber(n)
    case Array(items) => forall i :: 0 <= i < |items| ==> WellFormed(items[i])
    case Object(fields) => DistinctKeys(fields) && forall i :: 0 <= i < |fields| ==> WellFormed(fields[i].value)
    case _ => true
  }

  predicate HasKey(fields: seq<Field>, key: Text) {
    exists i :: 0 <= i < |fields| && fields[i].key == key
  }

  /** How a scalar is told apart: exactly, or as the printer shows it. */
  function Shown(v: Json, strict: bool): Json {
    if strict then v
    else match v
      case Numeric(NegativeZero) => Numeric(Integer(0))
      case Numeric(NonFinite(_)) => Null
      case _ => v
  }

  /**
   * Structural equality up to the order of object keys. Strictly, this is isDeepStrictEqual; otherwise minus zero
   * counts as zero and a number that is not finite counts as null.
   */
  predicate Alike(a: Json, b: Json, strict: bool) {
    match (a, b)
    case (Array(xs), Array(ys)) => |xs| == |ys| && forall i :: 0 <= i < |xs| ==> Alike(xs[i], ys[i], strict)
    case (Object(f), Object(g)) =>
      && (forall i :: 0 <= i < |f| ==> HasKey(g, f[i].key))
      && (forall j :: 0 <= j < |g| ==> HasKey(f, g[j].key))
      && forall i, j :: 0 <= i < |f| && 0 <= j < |g| && f[i].key == g[j].key ==> Alike(f[i].value, g[j].value, strict)
    case _ => Shown(a, strict) == Shown(b, strict)
  }

  lemma PrintArray(items: seq<Json>)
    ensures Print(Array(items)) == [91] + Join(Parts(items)) + [93]
  {
    assert Parts(items) == seq(|items|, i requires 0 <= i < |items| => Print(items[i]));
  }

  function Sorted(fields: seq<Field>): seq<Entry> {
    Sort(Entries(fields), KeyLe())
  }

  lemma PrintObject(fields: seq<Field>)
    ensures Print(Object(fields)) == [123] + Join(Map(Sorted(fields), EntryText)) + [125]
  {
    assert Entries(fields)
        == seq(|fields|, i requires 0 <= i < |fields| => Entry(fields[i].key, Print(fields[i].value)));
  }

  // ----- texts that show where they end

  /** What follows a printed value inside another one never continues a number. */
  predicate Stops(rest: Text) {
    rest == [] || !NumberUnit(rest[0])
  }

  /** Two texts of which neither can be mistaken for the beginning of the other. */
  ghost predicate Apart(s: Text, t: Text) {
    forall x, y :: Stops(x) && Stops(y) && s + x == t + y ==> s == t
  }

  lemma SameRest(s: Text, x: Text, y: Text)
    requires s + x == s + y
    ensures x == y
  {
    assert x == (s + x)[|s|..] && y == (s + y)[|s|..];
  }

  lemma Unequal(s: Text, t: Text, x: Text, y: Text)
    requires s != [] && t != [] && s[0] != t[0]
    ensures s + x != t + y
  {
    assert (s + x)[0] == s[0] && (t + y)[0] == t[0];
  }

  lemma HeadsDiffer(s: Text, t: Text)
    requires s != [] && t != [] && s[0] != t[0]
    ensures Apart(s, t)
  {
    forall x, y
      ensures s + x != t + y
    {
      Unequal(s, t, x, y);
    }
  }

  lemma NumberNotCut(s: Text, t: Text, x: Text, y: Text)
    requires NumberLike(t) && Stops(x) && |s| < |t|
    ensures s + x != t + y
  {
    if x != [] {
      assert (s + x)[|s|] == x[0];
      assert (t + y)[|s|] == t[|s|] && t[|s|] in t;
    }
  }

  lemma NumbersApart(s: Text, t: Text)
    requires NumberLike(s) && NumberLike(t)
    ensures Apart(s, t)
  {
    forall x, y | Stops(x) && Stops(y) && s + x == t + y
      ensures s == t
    {
      if |s| < |t| {
        NumberNotCut(s, t, x, y);
      } else if |t| < |s| {
        NumberNotCut(t, s, y, x);
      }
      assert s == (s + x)[..|s|] && t == (t + y)[..|t|];
    }
  }

  lemma DigitsInjective(m: nat, n: nat)
    requires Digits(m) == Digits(n)
    ensures m == n
  {
    var p, q := Decimals(m), Decimals(n);
    assert |p| == |Digits(m)| && |q| == |Digits(n)|;
    forall i | 0 <= i < |p|
      ensures p[i] == q[i]
    {
      assert Digits(m)[i] == 48 + p[i] && Digits(n)[i] == 48 + q[i];
    }
    DecimalsInjective(m, n);
  }

  lemma DecimalInjective(m: int, n: int)
    requires Decimal(m) == Decimal(n)
    ensures m == n
  {
    var p, q := Digits(if m < 0 then -m else m), Digits(if n < 0 then -n else n);
    assert p[0] in p && q[0] in q;
    if m < 0 && n < 0 {
      assert p == Decimal(m)[1..] && q == Decimal(n)[1..];
      DigitsInjective(-m, -n);
    } else if m >= 0 && n >= 0 {
      DigitsInjective(m, n);
    }
  }

  lemma NumberTextLike(n: Number)
    requires WellFormedNumber(n) && !n.NonFinite?
    ensures NumberLike(NumberText(n))
  {
    if n.Integer? {
      var d := Digits(if n.value < 0 then -n.value else n.value);
      assert d[0] in d;
    }
  }

  // ----- strings

  /** The code unit written at the front of an escaped text, and the length of its token. */
  function Unescape(t: Text): (Unit, nat)
    requires t != []
  {
    if t[0] != BACKSLASH then (t[0], 1)
    else if |t| < 2 then (0, 1)
    else if t[1] == QUOTE || t[1] == BACKSLASH then (t[1], 2)
    else if t[1] == 98 then (8, 2)
    else if t[1] == 116 then (9, 2)
    else if t[1] == 110 then (10, 2)
    else if t[1] == 102 then (12, 2)
    else if t[1] == 114 then (13, 2)
    else if |t| < 6 then (0, 1)
    else ((Value(t[2]) * 0x1000 + Value(t[3]) * 0x100 + Value(t[4]) * 16 + Value(t[5])) % 0x10000, 6)
  }

  function Value(c: Unit): nat {
    if c < 87 then (if c < 48 then 0 else c - 48) else c - 87
  }

  lemma HexValue(d: int)
    requires 0 <= d < 16
    ensures Value(Hex(d)) == d
  {
  }

  lemma Hex4Value(u: Unit)
    ensures var h := Hex4(u); Value(h[0]) * 0x1000 + Value(h[1]) * 0x100 + Value(h[2]) * 16 + Value(h[3]) == u
  {
    hide Value, Hex;
    HexValue(u / 0x1000);
    HexValue(u / 0x100 % 16);
    HexValue(u / 16 % 16);
    HexValue(u % 16);
    InBase16(u);
  }

  /** A token tells the code unit it stands for and where it ends. */
  lemma TokenReads(s: Text, i: nat, x: Text)
    requires i < |s|
    ensures Unescape(Token(s, i) + x) == (s[i], |Token(s, i)|)
  {
    var t, u := Token(s, i), s[i];
    var all := t + x;
    assert forall k :: 0 <= k < |t| ==> all[k] == t[k];
    if |t| == 6 {
      Hex4Value(u);
      assert t == [BACKSLASH, 117] + Hex4(u);
      assert t[2] == Hex4(u)[0] && t[3] == Hex4(u)[1] && t[4] == Hex4(u)[2] && t[5] == Hex4(u)[3];
    }
  }

  lemma EscapedHead(s: Text, i: nat, x: Text)
    requires i <= |s|
    ensures (Escaped(s, i) + [QUOTE] + x)[0] == QUOTE <==> i == |s|
    ensures i < |s| ==> Escaped(s, i) + [QUOTE] + x == Token(s, i) + (Escaped(s, i + 1) + [QUOTE] + x)
  {
    hide Token;
  }

  lemma {:induction false} EscapedApart(s: Text, i: nat, t: Text, j: nat, x: Text, y: Text)
    requires i <= |s| && j <= |t|
    requires Escaped(s, i) + [QUOTE] + x == Escaped(t, j) + [QUOTE] + y
    ensures s[i..] == t[j..] && x == y
    decreases |s| - i
  {
    hide Token, Unescape;
    EscapedHead(s, i, x);
    EscapedHead(t, j, y);
    if i == |s| {
      assert Escaped(s, i) == [] && Escaped(t, j) == [];
      assert [QUOTE] + x == [] + [QUOTE] + x && [QUOTE] + y == [] + [QUOTE] + y;
      SameRest([QUOTE], x, y);
    } else {
      var p', q' := Escaped(s, i + 1) + [QUOTE] + x, Escaped(t, j + 1) + [QUOTE] + y;
      TokensApart(s, i, t, j, p', q');
      EscapedApart(s, i + 1, t, j + 1, x, y);
      assert s[i..] == [s[i]] + s[i + 1..] && t[j..] == [t[j]] + t[j + 1..];
    }
  }

  lemma TokensApart(s: Text, i: nat, t: Text, j: nat, x: Text, y: Text)
    requires i < |s| && j < |t|
    requires Token(s, i) + x == Token(t, j) + y
    ensures s[i] == t[j] && x == y
  {
    hide Token, Unescape;
    TokenReads(s, i, x);
    TokenReads(t, j, y);
    assert x == (Token(s, i) + x)[|Token(s, i)|..] && y == (Token(t, j) + y)[|Token(t, j)|..];
  }

  lemma QuotedApart(s: Text, t: Text, x: Text, y: Text)
    requires Quoted(s) + x == Quoted(t) + y
    ensures s == t && x == y
  {
    var p, q := Escaped(s, 0) + [QUOTE] + x, Escaped(t, 0) + [QUOTE] + y;
    assert p == (Quoted(s) + x)[1..] && q == (Quoted(t) + y)[1..];
    EscapedApart(s, 0, t, 0, x, y);
    assert s[0..] == s && t[0..] == t;
  }

  lemma EntriesApart(e: Entry, d: Entry)
    requires Apart(e.text, d.text)
    ensures Apart(EntryText(e), EntryText(d))
    ensures EntryText(e) == EntryText(d) ==> e == d
  {
    forall x, y | Stops(x) && Stops(y) && EntryText(e) + x == EntryText(d) + y
      ensures e == d
    {
      EntrySplits(e, d, x, y);
      SameRest([COLON], e.text + x, d.text + y);
    }
    if EntryText(e) == EntryText(d) {
      EntrySplits(e, d, [], []);
      assert e.text + [] == e.text && d.text + [] == d.text;
      SameRest([COLON], e.text + [], d.text + []);
    }
  }

  lemma EntrySplits(e: Entry, d: Entry, x: Text, y: Text)
    requires EntryText(e) + x == EntryText(d) + y
    ensures e.key == d.key && [COLON] + (e.text + x) == [COLON] + (d.text + y)
  {
    hide Quoted;
    assert EntryText(e) + x == Quoted(e.key) + ([COLON] + (e.text + x));
    assert EntryText(d) + y == Quoted(d.key) + ([COLON] + (d.text + y));
    QuotedApart(e.key, d.key, [COLON] + (e.text + x), [COLON] + (d.text + y));
  }

  // ----- lists

  /** Texts that can be told apart from each other, from nothing, and from a closing bracket. */
  ghost predicate Listable(ts: seq<Text>, us: seq<Text>, close: Unit) {
    && (forall i, j :: 0 <= i < |ts| && 0 <= j < |us| ==> Apart(ts[i], us[j]))
    && (forall i :: 0 <= i < |ts| ==> ts[i] != [] && ts[i][0] != close)
    && (forall j :: 0 <= j < |us| ==> us[j] != [] && us[j][0] != close)
  }

  function Remainder(parts: seq<Text>, close: Unit, x: Text): Text
    requires parts != []
  {
    if |parts| == 1 then [close] + x else [COMMA] + (Join(parts[1..]) + [close] + x)
  }

  lemma JoinSplits(parts: seq<Text>, close: Unit, x: Text)
    requires parts != []
    ensures Join(parts) + [close] + x == parts[0] + Remainder(parts, close, x)
  {
  }

  lemma JoinHead(parts: seq<Text>, close: Unit, x: Text)
    requires forall i :: 0 <= i < |parts| ==> parts[i] != []
    ensures (Join(parts) + [close] + x)[0] == if parts == [] then close else parts[0][0]
  {
  }

  lemma {:induction false} JoinApart(ts: seq<Text>, us: seq<Text>, close: Unit, x: Text, y: Text)
    requires Listable(ts, us, close) && !NumberUnit(close) && close != COMMA
    requires Join(ts) + [close] + x == Join(us) + [close] + y
    ensures ts == us
  {
    hide Join, Apart;
    JoinHead(ts, close, x);
    JoinHead(us, close, y);
    assert ts == [] <==> us == [] by {
      assert (ts != [] ==> ts[0][0] != close) && (us != [] ==> us[0][0] != close);
    }
    if ts != [] {
      JoinSplits(ts, close, x);
      JoinSplits(us, close, y);
      var x', y' := Remainder(ts, close, x), Remainder(us, close, y);
      FirstApart(ts[0], us[0], x', y');
      assert x'[0] == y'[0];
      if |ts| > 1 {
        assert x'[1..] == Join(ts[1..]) + [close] + x && y'[1..] == Join(us[1..]) + [close] + y;
        JoinApart(ts[1..], us[1..], close, x, y);
      }
      assert ts == [ts[0]] + ts[1..] && us == [us[0]] + us[1..];
    }
  }

  lemma FirstApart(s: Text, t: Text, x: Text, y: Text)
    requires Apart(s, t) && Stops(x) && Stops(y) && s + x == t + y
    ensures s == t && x == y
  {
    SameRest(s, x, y);
  }

  lemma BracketsApart(open: Unit, close: Unit, ts: seq<Text>, us: seq<Text>)
    requires Listable(ts, us, close) && !NumberUnit(close) && close != COMMA
    ensures Apart([open] + Join(ts) + [close], [open] + Join(us) + [close])
    ensures [open] + Join(ts) + [close] == [open] + Join(us) + [close] ==> ts == us
  {
    var s, t := [open] + Join(ts) + [close], [open] + Join(us) + [close];
    forall x, y | s + x == t + y
      ensures ts == us
    {
      assert (s + x)[1..] == Join(ts) + [close] + x && (t + y)[1..] == Join(us) + [close] + y;
      JoinApart(ts, us, close, x, y);
    }
    assert s == t ==> s + [] == t + [];
  }

  // ----- printed values

  /** The first code unit of a printed value; any number counts as 48. */
  function Lead(v: Json): Unit {
    match Shown(v, false)
    case Null => 110
    case Boolean(on) => if on then 116 else 102
    case Numeric(_) => 48
    case Chars(_) => QUOTE
    case Array(_) => 91
    case Object(_) => 123
  }

  lemma PrintHead(v: Json)
    requires WellFormed(v)
    ensures Print(v) != [] && (if Lead(v) == 48 then NumberLike(Print(v)) else Print(v)[0] == Lead(v))
  {
    match v
    case Numeric(n) =>
      if !n.NonFinite? {
        NumberTextLike(n);
      }
    case Array(items) => PrintArray(items);
    case Object(fields) => PrintObject(fields);
    case _ =>
  }

  lemma SortedEntry(fields: seq<Field>, k: nat) returns (i: nat)
    requires k < |Sorted(fields)|
    ensures i < |fields| && Sorted(fields)[k] == Entry(fields[i].key, Print(fields[i].value))
  {
    SameMembers(Sorted(fields), Entries(fields));
    assert Sorted(fields)[k] in Entries(fields);
    i :| 0 <= i < |fields| && Entries(fields)[i] == Sorted(fields)[k];
  }

  ghost predicate EveryApart(xs: seq<Json>, ys: seq<Json>) {
    forall i, j :: 0 <= i < |xs| && 0 <= j < |ys| ==> Apart(Print(xs[i]), Print(ys[j]))
  }

  function Values(fields: seq<Field>): (r: seq<Json>)
    ensures |r| == |fields| && forall i :: 0 <= i < |r| ==> r[i] == fields[i].value
  {
    seq(|fields|, i requires 0 <= i < |fields| => fields[i].value)
  }

  lemma PartsListable(xs: seq<Json>, ys: seq<Json>)
    requires WellFormed(Array(xs)) && WellFormed(Array(ys)) && EveryApart(xs, ys)
    ensures Listable(Parts(xs), Parts(ys), 93)
  {
    hide Print, Apart;
    forall i | 0 <= i < |xs|
      ensures Parts(xs)[i] != [] && Parts(xs)[i][0] != 93
    {
      PrintHead(xs[i]);
    }
    forall j | 0 <= j < |ys|
      ensures Parts(ys)[j] != [] && Parts(ys)[j][0] != 93
    {
      PrintHead(ys[j]);
    }
  }

  lemma EntriesListable(f: seq<Field>, g: seq<Field>)
    requires EveryApart(Values(f), Values(g))
    ensures Listable(Map(Sorted(f), EntryText), Map(Sorted(g), EntryText), 125)
    ensures forall k, l ::
              0 <= k < |Sorted(f)| && 0 <= l < |Sorted(g)| && EntryText(Sorted(f)[k]) == EntryText(Sorted(g)[l]) ==>
                Sorted(f)[k] == Sorted(g)[l]
  {
    hide Print, Apart, Sorted;
    forall k, l | 0 <= k < |Sorted(f)| && 0 <= l < |Sorted(g)|
      ensures Apart(EntryText(Sorted(f)[k]), EntryText(Sorted(g)[l]))
      ensures EntryText(Sorted(f)[k]) == EntryText(Sorted(g)[l]) ==> Sorted(f)[k] == Sorted(g)[l]
    {
      var i := SortedEntry(f, k);
      var j := SortedEntry(g, l);
      assert Apart(Print(Values(f)[i]), Print(Values(g)[j]));
      EntriesApart(Sorted(f)[k], Sorted(g)[l]);
    }
  }

  /** No printed value is the beginning of another one followed by something that ends it. */
  lemma {:induction false} PrintsApart(a: Json, b: Json)
    requires WellFormed(a) && WellFormed(b)
    ensures Apart(Print(a), Print(b))
    decreases a
  {
    hide Print, Apart;
    PrintHead(a);
    PrintHead(b);
    if Lead(a) != Lead(b) {
      HeadsDiffer(Print(a), Print(b));
    } else if Lead(a) == 48 {
      NumbersApart(Print(a), Print(b));
    } else if a.Array? {
      ItemsApart(a.items, b.items);
      PartsListable(a.items, b.items);
      PrintArray(a.items);
      PrintArray(b.items);
      BracketsApart(91, 93, Parts(a.items), Parts(b.items));
    } else if a.Object? {
      FieldsApart(a.fields, b.fields);
      EntriesListable(a.fields, b.fields);
      PrintObject(a.fields);
      PrintObject(b.fields);
      BracketsApart(123, 125, Map(Sorted(a.fields), EntryText), Map(Sorted(b.fields), EntryText));
    } else {
      ScalarsApart(a, b);
    }
  }

  lemma ItemsApart(xs: seq<Json>, ys: seq<Json>)
    requires WellFormed(Array(xs)) && WellFormed(Array(ys))
    ensures EveryApart(xs, ys)
    decreases xs
  {
    hide Print, Apart;
    forall i, j | 0 <= i < |xs| && 0 <= j < |ys|
      ensures Apart(Print(xs[i]), Print(ys[j]))
    {
      PrintsApart(xs[i], ys[j]);
    }
  }

  lemma FieldsApart(f: seq<Field>, g: seq<Field>)
    requires WellFormed(Object(f)) && WellFormed(Object(g))
    ensures EveryApart(Values(f), Values(g))
    decreases f
  {
    hide Print, Apart;
    forall i, j | 0 <= i < |f| && 0 <= j < |g|
      ensures Apart(Print(f[i].value), Print(g[j].value))
    {
      PrintsApart(f[i].value, g[j].value);
    }
  }

  lemma ScalarsApart(a: Json, b: Json)
    requires WellFormed(a) && WellFormed(b) && Lead(a) == Lead(b) && Lead(a) != 48 && !a.Array? && !a.Object?
    ensures Apart(Print(a), Print(b))
    ensures Print(a) == Print(b) ==> Shown(a, false) == Shown(b, false)
  {
    if a.Chars? {
      forall x, y | Quoted(a.text) + x == Quoted(b.text) + y
        ensures a == b
      {
        QuotedApart(a.text, b.text, x, y);
      }
      assert Quoted(a.text) == Quoted(b.text) ==> Quoted(a.text) + [] == Quoted(b.text) + [];
    }
  }

  // ----- the order of keys

  lemma {:induction false} TextLeTotal(s: Text, t: Text)
    ensures TextLe(s, t) || TextLe(t, s)
    ensures TextLe(s, t) && TextLe(t, s) ==> s == t
  {
    if s != [] && t != [] && s[0] == t[0] {
      TextLeTotal(s[1..], t[1..]);
      assert s == [s[0]] + s[1..] && t == [t[0]] + t[1..];
    }
  }

  lemma {:induction false} TextLeTransitive(s: Text, t: Text, u: Text)
    requires TextLe(s, t) && TextLe(t, u)
    ensures TextLe(s, u)
  {
    if s != [] && s[0] == t[0] == u[0] {
      TextLeTransitive(s[1..], t[1..], u[1..]);
    }
  }

  function KeyLess(): (Entry, Entry) -> bool {
    (a: Entry, b: Entry) => TextLe(a.key, b.key) && a.key != b.key
  }

  lemma KeyLeTotal(entries: seq<Entry>)
    ensures TotalOn(entries, KeyLe())
  {
    forall a, b | a in entries && b in entries
      ensures KeyLe()(a, b) || KeyLe()(b, a)
    {
      TextLeTotal(a.key, b.key);
    }
    forall a, b, c | a in entries && b in entries && c in entries && KeyLe()(a, b) && KeyLe()(b, c)
      ensures KeyLe()(a, c)
    {
      TextLeTransitive(a.key, b.key, c.key);
    }
  }

  lemma SortedStrictly(fields: seq<Field>)
    requires DistinctKeys(fields)
    ensures Ordered(Sorted(fields), KeyLess())
  {
    var entries, sorted := Entries(fields), Sorted(fields);
    KeyLeTotal(entries);
    SortOrdered(entries, KeyLe());
    forall k, l | 0 <= k < l < |sorted|
      ensures KeyLess()(sorted[k], sorted[l])
    {
      assert KeyLe()(sorted[k], sorted[l]);
      if sorted[k].key == sorted[l].key {
        var i := SortedEntry(fields, k);
        var j := SortedEntry(fields, l);
        assert i == j;
        MultiplicityTwo(sorted, k, l);
        MultiplicityOne(entries, i);
      }
    }
  }

  lemma SameEntriesSorted(f: seq<Field>, g: seq<Field>)
    requires DistinctKeys(f) && DistinctKeys(g)
    requires forall e :: e in Entries(f) <==> e in Entries(g)
    ensures Sorted(f) == Sorted(g)
  {
    SortedStrictly(f);
    SortedStrictly(g);
    SameMembers(Sorted(f), Entries(f));
    SameMembers(Sorted(g), Entries(g));
    forall a, b | KeyLess()(a, b)
      ensures !KeyLess()(b, a)
    {
      TextLeTotal(a.key, b.key);
    }
    OrderedUnique(Sorted(f), Sorted(g), KeyLess());
  }

  // ----- equal texts, equal values

  lemma SameLead(a: Json, b: Json)
    requires WellFormed(a) && WellFormed(b) && Print(a) == Print(b)
    ensures Lead(a) == Lead(b)
  {
    PrintHead(a);
    PrintHead(b);
  }

  lemma NumbersAlike(m: Number, n: Number)
    requires WellFormedNumber(m) && WellFormedNumber(n) && !m.NonFinite? && !n.NonFinite?
    requires NumberText(m) == NumberText(n)
    ensures Shown(Numeric(m), false) == Shown(Numeric(n), false)
  {
    assert Decimal(0) == [48];
    var v := if m.Integer? then m.value else 0;
    var w := if n.Integer? then n.value else 0;
    if !m.Inexact? && !n.Inexact? {
      DecimalInjective(v, w);
    }
  }

  lemma {:induction false} PrintedAlike(a: Json, b: Json)
    requires WellFormed(a) && WellFormed(b) && Print(a) == Print(b)
    ensures Alike(a, b, false)
    decreases a
  {
    SameLead(a, b);
    if Lead(a) == 48 {
      NumbersAlike(a.number, b.number);
    } else if a.Array? {
      PrintedItemsAlike(a.items, b.items);
    } else if a.Object? {
      PrintedFieldsAlike(a.fields, b.fields);
    } else {
      ScalarsApart(a, b);
    }
  }

  lemma PrintedItemsAlike(xs: seq<Json>, ys: seq<Json>)
    requires WellFormed(Array(xs)) && WellFormed(Array(ys)) && Print(Array(xs)) == Print(Array(ys))
    ensures Alike(Array(xs), Array(ys), false)
    decreases xs
  {
    hide Print, Apart;
    ItemsApart(xs, ys);
    PartsListable(xs, ys);
    PrintArray(xs);
    PrintArray(ys);
    BracketsApart(91, 93, Parts(xs), Parts(ys));
    assert |xs| == |Parts(xs)| == |ys|;
    forall i | 0 <= i < |xs|
      ensures Alike(xs[i], ys[i], false)
    {
      assert Parts(xs)[i] == Parts(ys)[i];
      PrintedAlike(xs[i], ys[i]);
    }
  }

  lemma SameSorted(f: seq<Field>, g: seq<Field>)
    requires WellFormed(Object(f)) && WellFormed(Object(g)) && Print(Object(f)) == Print(Object(g))
    ensures Sorted(f) == Sorted(g)
  {
    hide Print, Apart, Sorted;
    FieldsApart(f, g);
    EntriesListable(f, g);
    PrintObject(f);
    PrintObject(g);
    var s, t := Map(Sorted(f), EntryText), Map(Sorted(g), EntryText);
    BracketsApart(123, 125, s, t);
    assert |Sorted(f)| == |s| == |t| == |Sorted(g)|;
    forall k | 0 <= k < |Sorted(f)|
      ensures Sorted(f)[k] == Sorted(g)[k]
    {
      assert s[k] == t[k];
    }
  }

  /** A field of one object is answered by the field of the other that printed alike. */
  lemma CounterpartPrinted(f: seq<Field>, g: seq<Field>, i: nat) returns (j: nat)
    requires Sorted(f) == Sorted(g) && i < |f|
    ensures j < |g| && g[j].key == f[i].key && Print(g[j].value) == Print(f[i].value)
  {
    SameMembers(Sorted(f), Entries(f));
    SameMembers(Sorted(g), Entries(g));
    assert Entries(f)[i] in Entries(f);
    assert Entries(f)[i] in Entries(g);
    j :| 0 <= j < |g| && Entries(g)[j] == Entries(f)[i];
  }

  lemma PrintedFieldsAlike(f: seq<Field>, g: seq<Field>)
    requires WellFormed(Object(f)) && WellFormed(Object(g)) && Print(Object(f)) == Print(Object(g))
    ensures Alike(Object(f), Object(g), false)
    decreases f
  {
    hide Print, Sorted;
    SameSorted(f, g);
    forall i | 0 <= i < |f|
      ensures HasKey(g, f[i].key)
    {
      var j := CounterpartPrinted(f, g, i);
    }
    forall j | 0 <= j < |g|
      ensures HasKey(f, g[j].key)
    {
      var i := CounterpartPrinted(g, f, j);
    }
    forall i, j | 0 <= i < |f| && 0 <= j < |g| && f[i].key == g[j].key
      ensures Alike(f[i].value, g[j].value, false)
    {
      var k := CounterpartPrinted(f, g, i);
      assert k == j;
      PrintedAlike(f[i].value, g[j].value);
    }
  }

  lemma PrintShown(v: Json)
    requires !v.Array? && !v.Object?
    ensures Print(v) == Print(Shown(v, false))
  {
  }

  lemma {:induction false} AlikePrinted(a: Json, b: Json)
    requires WellFormed(a) && WellFormed(b) && Alike(a, b, false)
    ensures Print(a) == Print(b)
    decreases a
  {
    if a.Array? && b.Array? {
      PrintArray(a.items);
      PrintArray(b.items);
      forall i | 0 <= i < |a.items|
        ensures Parts(a.items)[i] == Parts(b.items)[i]
      {
        AlikePrinted(a.items[i], b.items[i]);
      }
      assert Parts(a.items) == Parts(b.items);
    } else if a.Object? && b.Object? {
      PrintObject(a.fields);
      PrintObject(b.fields);
      AlikeFieldsPrinted(a.fields, b.fields);
    } else {
      PrintShown(a);
      PrintShown(b);
    }
  }

  lemma AlikeFieldsPrinted(f: seq<Field>, g: seq<Field>)
    requires WellFormed(Object(f)) && WellFormed(Object(g)) && Alike(Object(f), Object(g), false)
    ensures Sorted(f) == Sorted(g)
    decreases f
  {
    hide Print;
    forall i, j | 0 <= i < |f| && 0 <= j < |g| && f[i].key == g[j].key
      ensures Entries(f)[i] == Entries(g)[j]
    {
      AlikePrinted(f[i].value, g[j].value);
    }
    forall e
      ensures e in Entries(f) <==> e in Entries(g)
    {
      if i :| 0 <= i < |f| && Entries(f)[i] == e {
        var j :| 0 <= j < |g| && g[j].key == f[i].key;
        assert Entries(g)[j] == e;
      }
      if j :| 0 <= j < |g| && Entries(g)[j] == e {
        var i :| 0 <= i < |f| && f[i].key == g[j].key;
        assert Entries(f)[i] == e;
      }
    }
    SameEntriesSorted(f, g);
  }

  /** sameJson. */
  predicate SameJson(a: Json, b: Json) {
    Print(a) == Print(b)
  }

  /** Two values print equally exactly when they are equal up to the order of object keys. */
  lemma SameJsonDecides(a: Json, b: Json)
    requires WellFormed(a) && WellFormed(b)
    ensures SameJson(a, b) <==> Alike(a, b, false)
  {
    if SameJson(a, b) {
      PrintedAlike(a, b);
    }
    if Alike(a, b, false) {
      AlikePrinted(a, b);
    }
  }

  /** Neither minus zero nor a number that is not finite occurs. */
  predicate Faithful(v: Json) {
    match v
    case Numeric(n) => !n.NegativeZero? && !n.NonFinite?
    case Array(items) => forall i :: 0 <= i < |items| ==> Faithful(items[i])
    case Object(fields) => forall i :: 0 <= i < |fields| ==> Faithful(fields[i].value)
    case _ => true
  }

  /** Without such numbers the comparison agrees with isDeepStrictEqual. */
  lemma {:induction false} FaithfulStrict(a: Json, b: Json)
    requires Faithful(a) && Faithful(b)
    ensures Alike(a, b, false) <==> Alike(a, b, true)
    decreases a
  {
    if a.Array? && b.Array? && |a.items| == |b.items| {
      forall i | 0 <= i < |a.items|
        ensures Alike(a.items[i], b.items[i], false) <==> Alike(a.items[i], b.items[i], true)
      {
        FaithfulStrict(a.items[i], b.items[i]);
      }
    } else if a.Object? && b.Object? {
      forall i, j | 0 <= i < |a.fields| && 0 <= j < |b.fields|
        ensures Alike(a.fields[i].value, b.fields[j].value, false)
                <==> Alike(a.fields[i].value, b.fields[j].value, true)
      {
        FaithfulStrict(a.fields[i].value, b.fields[j].value);
      }
    }
  }

  /** With them it does not: a number that is not finite prints as null, and minus zero prints as zero. */
  lemma UnfaithfulNumbers()
    ensures SameJson(Numeric(NonFinite(true)), Null) && !Alike(Numeric(NonFinite(true)), Null, true)
    ensures SameJson(Numeric(NegativeZero), Numeric(Integer(0)))
            && !Alike(Numeric(NegativeZero), Numeric(Integer(0)), true)
  {
    assert Decimal(0) == [48];
  }

  lemma {:induction false} AlikeReflexive(a: Json, strict: bool)
    requires WellFormed(a)
    ensures Alike(a, a, strict)
    decreases a
  {
    if a.Array? {
      forall i | 0 <= i < |a.items|
        ensures Alike(a.items[i], a.items[i], strict)
      {
        AlikeReflexive(a.items[i], strict);
      }
    } else if a.Object? {
      forall i | 0 <= i < |a.fields|
        ensures Alike(a.fields[i].value, a.fields[i].value, strict)
      {
        AlikeReflexive(a.fields[i].value, strict);
      }
    }
  }
}
