/**
 The canonical printing of JSON values behind the policy gate's action digest: object keys sorted,
 undefined fields dropped, strings escaped as JSON.stringify does.  Texts are sequences of UTF-16
 code units.
 */
module CanonicalJson {
  import opened CodeUnits

  /** A finite number is known by the text it prints as. */
  datatype Value =
    | Undefined
    | Null
    | Bool(b: bool)
    | Number(text: Text)
    | Str(s: Text)
    | Arr(items: seq<Value>)
    | Obj(fields: seq<Field>)

  datatype Field = Field(key: Text, value: Value)

  // ---------------------------------------------------------------- strings

  predicate IsLead(u: Unit) {
    0xD800 <= u < 0xDC00
  }

  predicate IsTrail(u: Unit) {
    0xDC00 <= u < 0xE000
  }

  /** Lower-case hexadecimal. */
  function HexDigit(d: int): Unit
    requires 0 <= d < 16
  {
    if d < 10 then 48 + d else 87 + d
  }

  function HexValue(u: Unit): int {
    if u < 97 then u - 48 else u - 87
  }

  function Hex4(u: Unit): Text {
    [HexDigit(u / 4096), HexDigit(u / 256 % 16), HexDigit(u / 16 % 16), HexDigit(u % 16)]
  }

  function EscapeUnit(u: Unit): Text {
    if u == QUOTE || u == BACKSLASH then [BACKSLASH, u]
    else if u == 8 then [BACKSLASH, 98]
    else if u == 9 then [BACKSLASH, 116]
    else if u == 10 then [BACKSLASH, 110]
    else if u == 12 then [BACKSLASH, 102]
    else if u == 13 then [BACKSLASH, 114]
    else if u < 32 || IsLead(u) || IsTrail(u) then [BACKSLASH, LETTER_U] + Hex4(u)
    else [u]
  }

  /** A surrogate pair stays as it is, a surrogate on its own is escaped. */
  function Escape(s: Text): Text {
    if s == [] then []
    else if |s| > 1 && IsLead(s[0]) && IsTrail(s[1]) then s[..2] + Escape(s[2..])
    else EscapeUnit(s[0]) + Escape(s[1..])
  }

  function Quote(s: Text): Text {
    [QUOTE] + Escape(s) + [QUOTE]
  }

  // ---------------------------------------------------------------- keys

  /** The order of code units, as the default sort of strings has it. */
  predicate Below(a: Text, b: Text) {
    b != [] && (a == [] || a[0] < b[0] || (a[0] == b[0] && Below(a[1..], b[1..])))
  }

  function Insert(key: Text, keys: seq<Text>): seq<Text> {
    if keys == [] then [key]
    else if Below(keys[0], key) then [keys[0]] + Insert(key, keys[1..])
    else [key] + keys
  }

  function Sort(keys: seq<Text>): seq<Text> {
    if keys == [] then [] else Insert(keys[0], Sort(keys[1..]))
  }

  function DefinedKeys(fields: seq<Field>): seq<Text> {
    if fields == [] then []
    else (if fields[0].value.Undefined? then [] else [fields[0].key]) + DefinedKeys(fields[1..])
  }

  predicate HasKey(fields: seq<Field>, key: Text) {
    exists i :: 0 <= i < |fields| && fields[i].key == key
  }

  function IndexOfKey(fields: seq<Field>, key: Text): (i: nat)
    requires HasKey(fields, key)
    ensures i < |fields| && fields[i].key == key
  {
    if fields[0].key == key then 0
    else
      assert HasKey(fields[1..], key) by {
        var i :| 0 <= i < |fields| && fields[i].key == key;
        assert fields[1..][i - 1].key == key;
      }
      1 + IndexOfKey(fields[1..], key)
  }

  // ---------------------------------------------------------------- printing

  function Canonicalize(v: Value): Text
    decreases v
  {
    match v
    case Undefined => []
    case Null => [110, 117, 108, 108]
    case Bool(b) => if b then [116, 114, 117, 101] else [102, 97, 108, 115, 101]
    case Number(text) => text
    case Str(s) => Quote(s)
    case Arr(items) =>
      [OPEN_BRACKET] + if items == [] then [CLOSE_BRACKET] else Canonicalize(items[0]) + MoreItems(items[1..])
    case Obj(fields) =>
      var keys := Sort(DefinedKeys(fields));
      [OPEN_BRACE] + if keys == [] then [CLOSE_BRACE] else PrintField(fields, keys[0]) + MoreFields(fields, keys[1..])
  }

  /** The items after the first, each behind a comma, and the closing bracket. */
  function MoreItems(items: seq<Value>): Text
    decreases items
  {
    if items == [] then [CLOSE_BRACKET] else [COMMA] + Canonicalize(items[0]) + MoreItems(items[1..])
  }

  function PrintField(fields: seq<Field>, key: Text): Text
    decreases fields, 0
  {
    Quote(key) + [COLON] + if HasKey(fields, key) then Canonicalize(fields[IndexOfKey(fields, key)].value) else []
  }

  function MoreFields(fields: seq<Field>, keys: seq<Text>): Text
    decreases fields, |keys| + 1
  {
    if keys == [] then [CLOSE_BRACE] else [COMMA] + PrintField(fields, keys[0]) + MoreFields(fields, keys[1..])
  }

  // ---------------------------------------------------------------- strings read back in one way

  /** The code unit at the front of an escaped text, and how far it reaches. */
  function FirstUnit(text: Text): (int, nat) {
    if |text| > 1 && text[0] == BACKSLASH then
      if text[1] == LETTER_U then
        if |text| > 5 then
          (HexValue(text[2]) * 4096 + HexValue(text[3]) * 256 + HexValue(text[4]) * 16 + HexValue(text[5]), 6)
        else (0, 0)
      else if text[1] == 98 then (8, 2)
      else if text[1] == 116 then (9, 2)
      else if text[1] == 110 then (10, 2)
      else if text[1] == 102 then (12, 2)
      else if text[1] == 114 then (13, 2)
      else (text[1], 2)
    else if |text| > 0 then (text[0], 1)
    else (0, 0)
  }

  lemma {:induction false} DigitReadsBack(d: int)
    requires 0 <= d < 16
    ensures HexValue(HexDigit(d)) == d
  {
  }

  lemma {:induction false} HexReadsBack(u: Unit)
    ensures var h := Hex4(u);
      HexValue(h[0]) * 4096 + HexValue(h[1]) * 256 + HexValue(h[2]) * 16 + HexValue(h[3]) == u
  {
    DigitReadsBack(u / 4096);
    DigitReadsBack(u / 256 % 16);
    DigitReadsBack(u / 16 % 16);
    DigitReadsBack(u % 16);
    assert u / 16 / 16 == u / 256 && u / 256 / 16 == u / 4096;
  }

  lemma {:induction false} UnitReadsBack(u: Unit, rest: Text)
    ensures FirstUnit(EscapeUnit(u) + rest) == (u, |EscapeUnit(u)|)
    ensures EscapeUnit(u)[0] != QUOTE && !IsLead(EscapeUnit(u)[0])
  {
    HexReadsBack(u);
    var text := EscapeUnit(u) + rest;
    if u < 32 || IsLead(u) || IsTrail(u) {
      if u !in {8, 9, 10, 12, 13} {
        assert text[2..6] == Hex4(u);
      }
    }
  }

  predicate StartsWithPair(s: Text) {
    |s| > 1 && IsLead(s[0]) && IsTrail(s[1])
  }

  /** Up to its closing quote an escaped string can be read in one way only. */
  lemma {:induction false} EscapeReadsOneWay(s: Text, t: Text, x: Text, y: Text)
    requires Escape(s) + [QUOTE] + x == Escape(t) + [QUOTE] + y
    ensures s == t && x == y
    decreases |s|
  {
    var left, right := Escape(s) + [QUOTE] + x, Escape(t) + [QUOTE] + y;
    FirstOfEscape(s, x);
    FirstOfEscape(t, y);
    if s == [] {
      assert x == left[1..] && y == right[1..];
    } else {
      var n := FirstChunk(s, t, x, y);
      EscapeReadsOneWay(s[n..], t[n..], x, y);
      assert s == s[..n] + s[n..] && t == t[..n] + t[n..];
    }
  }

  lemma {:induction false} Cancel(p: Text, x: Text, q: Text, y: Text)
    requires p + x == q + y && |p| == |q|
    ensures p == q && x == y
  {
    assert (p + x)[..|p|] == p && (p + x)[|p|..] == x;
    assert (q + y)[..|p|] == q && (q + y)[|p|..] == y;
  }

  function FirstPrinted(s: Text): (Text, nat)
    requires s != []
  {
    if StartsWithPair(s) then (s[..2], 2) else (EscapeUnit(s[0]), 1)
  }

  lemma {:induction false} EscapeStep(s: Text, x: Text)
    requires s != []
    ensures var (printed, n) := FirstPrinted(s);
      Escape(s) + [QUOTE] + x == printed + (Escape(s[n..]) + [QUOTE] + x)
  {
  }

  /** Both escaped strings begin with the same pair or the same unit. */
  lemma {:induction false} FirstChunk(s: Text, t: Text, x: Text, y: Text) returns (n: nat)
    requires s != [] && t != [] && StartsWithPair(s) == StartsWithPair(t)
    requires Escape(s) + [QUOTE] + x == Escape(t) + [QUOTE] + y
    ensures 0 < n <= |s| && n <= |t| && s[..n] == t[..n]
    ensures Escape(s[n..]) + [QUOTE] + x == Escape(t[n..]) + [QUOTE] + y
  {
    n := FirstPrinted(s).1;
    EscapeStep(s, x);
    EscapeStep(t, y);
    if !StartsWithPair(s) {
      UnitReadsBack(s[0], Escape(s[1..]) + [QUOTE] + x);
      UnitReadsBack(t[0], Escape(t[1..]) + [QUOTE] + y);
    }
    Cancel(FirstPrinted(s).0, Escape(s[n..]) + [QUOTE] + x, FirstPrinted(t).0, Escape(t[n..]) + [QUOTE] + y);
  }

  lemma {:induction false} FirstOfEscape(s: Text, x: Text)
    ensures var text := Escape(s) + [QUOTE] + x;
      && (text[0] == QUOTE <==> s == [])
      && (IsLead(text[0]) <==> StartsWithPair(s))
  {
    if s != [] && !StartsWithPair(s) {
      UnitReadsBack(s[0], []);
    }
  }

  // ---------------------------------------------------------------- sorted keys

  lemma {:induction false} BelowIsTotal(a: Text, b: Text)
    ensures a != b ==> Below(a, b) || Below(b, a)
    ensures !(Below(a, b) && Below(b, a)) && (Below(a, b) ==> a != b)
  {
    if a != [] && b != [] {
      BelowIsTotal(a[1..], b[1..]);
      assert a == [a[0]] + a[1..] && b == [b[0]] + b[1..];
    }
  }

  lemma {:induction false} BelowIsTransitive(a: Text, b: Text, c: Text)
    requires Below(a, b) && Below(b, c)
    ensures Below(a, c)
  {
    if a != [] && a[0] == b[0] && b[0] == c[0] {
      BelowIsTransitive(a[1..], b[1..], c[1..]);
    }
  }

  ghost predicate Ascending(keys: seq<Text>) {
    forall i, j :: 0 <= i < j < |keys| ==> Below(keys[i], keys[j])
  }

  lemma {:induction false} InsertAscends(key: Text, keys: seq<Text>)
    requires Ascending(keys) && key !in keys
    ensures Ascending(Insert(key, keys)) && forall k :: k in Insert(key, keys) <==> k == key || k in keys
  {
    if keys != [] {
      BelowIsTotal(keys[0], key);
      assert keys == [keys[0]] + keys[1..];
      if Below(keys[0], key) {
        var rest := Insert(key, keys[1..]);
        InsertAscends(key, keys[1..]);
        forall j | 0 <= j < |rest| ensures Below(keys[0], rest[j]) {
          assert rest[j] == key || rest[j] in keys[1..];
        }
      } else {
        forall j | 0 <= j < |keys| ensures Below(key, keys[j]) {
          if j > 0 {
            BelowIsTransitive(key, keys[0], keys[j]);
          }
        }
      }
    }
  }

  predicate DistinctKeys(fields: seq<Field>) {
    forall i, j :: 0 <= i < j < |fields| ==> fields[i].key != fields[j].key
  }

  /** The key has a value other than undefined. */
  predicate Defines(fields: seq<Field>, key: Text) {
    HasKey(fields, key) && !fields[IndexOfKey(fields, key)].value.Undefined?
  }

  predicate DefinedIn(fields: seq<Field>, key: Text) {
    exists f :: f in fields && f.key == key && !f.value.Undefined?
  }

  lemma {:induction false} SortedKeys(fields: seq<Field>)
    requires DistinctKeys(fields)
    ensures Ascending(Sort(DefinedKeys(fields)))
    ensures forall k :: k in Sort(DefinedKeys(fields)) <==> DefinedIn(fields, k)
  {
    if fields != [] {
      var rest := fields[1..];
      SortedKeys(rest);
      assert fields == [fields[0]] + rest;
      forall k ensures DefinedIn(fields, k) <==> DefinedIn(rest, k) || (fields[0].key == k && !fields[0].value.Undefined?) {
        assert fields[0] in fields && forall f :: f in rest ==> f in fields;
      }
      if !fields[0].value.Undefined? {
        assert !DefinedIn(rest, fields[0].key);
        assert DefinedKeys(fields)[1..] == DefinedKeys(rest);
        InsertAscends(fields[0].key, Sort(DefinedKeys(rest)));
      } else {
        assert DefinedKeys(fields) == DefinedKeys(rest);
      }
    }
  }

  /** The sorted keys are exactly those the object defines. */
  lemma {:induction false} SortedKeysDefine(fields: seq<Field>)
    requires DistinctKeys(fields)
    ensures Ascending(Sort(DefinedKeys(fields)))
    ensures forall k :: k in Sort(DefinedKeys(fields)) <==> Defines(fields, k)
  {
    SortedKeys(fields);
    forall k ensures DefinedIn(fields, k) <==> Defines(fields, k) {
      if DefinedIn(fields, k) {
        var f :| f in fields && f.key == k && !f.value.Undefined?;
        var i :| 0 <= i < |fields| && fields[i] == f;
        assert HasKey(fields, k) && IndexOfKey(fields, k) == i;
      }
      if Defines(fields, k) {
        assert fields[IndexOfKey(fields, k)] in fields;
      }
    }
  }

  /** Two ascending lists of the same keys are the same list. */
  lemma {:induction false} AscendingIsUnique(a: seq<Text>, b: seq<Text>)
    requires Ascending(a) && Ascending(b) && forall k :: k in a <==> k in b
    ensures a == b
  {
    assert a == [] <==> b == [] by {
      if a != [] {
        assert a[0] in b;
      }
      if b != [] {
        assert b[0] in a;
      }
    }
    if a != [] {
      assert a[0] in b && b[0] in a;
      FirstIsLeast(a, b[0]);
      FirstIsLeast(b, a[0]);
      BelowIsTotal(a[0], b[0]);
      RestKeys(a);
      RestKeys(b);
      AscendingIsUnique(a[1..], b[1..]);
      assert a == [a[0]] + a[1..] && b == [b[0]] + b[1..];
    }
  }

  lemma {:induction false} FirstIsLeast(keys: seq<Text>, key: Text)
    requires Ascending(keys) && key in keys
    ensures key == keys[0] || Below(keys[0], key)
  {
  }

  lemma {:induction false} RestKeys(keys: seq<Text>)
    requires Ascending(keys) && keys != []
    ensures forall k :: k in keys[1..] <==> k in keys && k != keys[0]
  {
    BelowIsTotal(keys[0], keys[0]);
    assert keys == [keys[0]] + keys[1..];
    assert forall i :: 1 <= i < |keys| ==> Below(keys[0], keys[i]);
  }

  // ---------------------------------------------------------------- values read back in one way

  /** Digits, sign, point and exponent, and at least one of them. */
  predicate IsNumberText(text: Text) {
    && text != [] && (text[0] == 45 || 48 <= text[0] <= 57)
    && forall i :: 0 <= i < |text| ==> IsNumberUnit(text[i])
  }

  /** A value other than undefined: numbers print as such, keys of an object are all different; items and fields may be undefined. */
  predicate IsPlain(v: Value)
    decreases v
  {
    match v
    case Undefined => false
    case Number(text) => IsNumberText(text)
    case Arr(items) => forall i :: 0 <= i < |items| ==> items[i].Undefined? || IsPlain(items[i])
    case Obj(fields) =>
      DistinctKeys(fields) && forall i :: 0 <= i < |fields| ==> fields[i].value.Undefined? || IsPlain(fields[i].value)
    case _ => true
  }

  function ValueOf(fields: seq<Field>, key: Text): Value
    requires HasKey(fields, key)
  {
    fields[IndexOfKey(fields, key)].value
  }

  predicate IsItem(v: Value) {
    v.Undefined? || IsPlain(v)
  }

  /** An array whose print has nothing between its brackets. */
  predicate Vanishes(items: seq<Value>) {
    items == [] || items == [Undefined]
  }

  /** Equal but for the order of fields, undefined fields, and arrays of nothing but one undefined item, which count as empty. */
  ghost predicate Alike(a: Value, b: Value)
    decreases a
  {
    match (a, b)
    case (Arr(ls), Arr(rs)) =>
      (Vanishes(ls) && Vanishes(rs)) || (|ls| == |rs| && forall i :: 0 <= i < |ls| ==> Alike(ls[i], rs[i]))
    case (Obj(ls), Obj(rs)) =>
      && (forall k :: Defines(ls, k) <==> Defines(rs, k))
      && (forall k :: Defines(ls, k) && Defines(rs, k) ==> Alike(ls[IndexOfKey(ls, k)].value, rs[IndexOfKey(rs, k)].value))
    case _ => a == b
  }

  ghost predicate ItemsAlike(ls: seq<Value>, rs: seq<Value>) {
    |ls| == |rs| && forall i :: 0 <= i < |ls| ==> Alike(ls[i], rs[i])
  }

  /** Equal but for the order of fields and undefined fields. */
  ghost predicate Same(a: Value, b: Value)
    decreases a
  {
    match (a, b)
    case (Arr(ls), Arr(rs)) => |ls| == |rs| && forall i :: 0 <= i < |ls| ==> Same(ls[i], rs[i])
    case (Obj(ls), Obj(rs)) =>
      && (forall k :: Defines(ls, k) <==> Defines(rs, k))
      && (forall k :: Defines(ls, k) && Defines(rs, k) ==> Same(ls[IndexOfKey(ls, k)].value, rs[IndexOfKey(rs, k)].value))
    case _ => a == b
  }

  /** Nothing follows, or what can follow a value inside another. */
  predicate Delimited(x: Text) {
    x == [] || x[0] in {COMMA, CLOSE_BRACKET, CLOSE_BRACE}
  }

  function KindOf(u: Unit): int {
    if u == 110 then 1
    else if u == 116 || u == 102 then 2
    else if u == QUOTE then 4
    else if u == OPEN_BRACKET then 5
    else if u == OPEN_BRACE then 6
    else if u == 45 || 48 <= u <= 57 then 3
    else 0
  }

  function Kind(v: Value): int {
    match v
    case Undefined => 0
    case Null => 1
    case Bool(_) => 2
    case Number(_) => 3
    case Str(_) => 4
    case Arr(_) => 5
    case Obj(_) => 6
  }

  lemma {:induction false} FirstUnitTellsKind(v: Value, x: Text)
    requires IsItem(v) && Delimited(x)
    ensures Canonicalize(v) == [] <==> v.Undefined?
    ensures Canonicalize(v) + x != [] ==> KindOf((Canonicalize(v) + x)[0]) == Kind(v)
  {
  }

  predicate IsNumberUnit(u: Unit) {
    48 <= u <= 57 || u in {43, 45, 46, 101}
  }

  /** How far a number reaches. */
  function NumberSpan(text: Text): nat {
    if text == [] || !IsNumberUnit(text[0]) then 0 else 1 + NumberSpan(text[1..])
  }

  lemma {:induction false} SpanOfNumber(a: Text, x: Text)
    requires Delimited(x) && forall i :: 0 <= i < |a| ==> IsNumberUnit(a[i])
    ensures NumberSpan(a + x) == |a|
  {
    if a == [] {
      assert a + x == x;
    } else {
      assert (a + x)[1..] == a[1..] + x;
      SpanOfNumber(a[1..], x);
    }
  }

  lemma {:induction false} NumberReadsOneWay(a: Text, b: Text, x: Text, y: Text)
    requires IsNumberText(a) && IsNumberText(b) && Delimited(x) && Delimited(y) && a + x == b + y
    ensures a == b && x == y
  {
    SpanOfNumber(a, x);
    SpanOfNumber(b, y);
    Cancel(a, x, b, y);
  }

  /** In front of what may follow it, a printed value can be read in one way only, up to the order of fields. */
  lemma {:induction false} ReadsOneWay(a: Value, b: Value, x: Text, y: Text)
    requires IsItem(a) && IsItem(b) && Delimited(x) && Delimited(y)
    requires Canonicalize(a) + x == Canonicalize(b) + y
    ensures Alike(a, b) && x == y
    decreases a, 1
  {
    FirstUnitTellsKind(a, x);
    FirstUnitTellsKind(b, y);
    match (a, b) {
      case (Undefined, Undefined) => Cancel([], x, [], y);
      case (Null, Null) => Cancel(Canonicalize(a), x, Canonicalize(b), y);
      case (Bool(p), Bool(q)) =>
        assert (Canonicalize(a) + x)[0] == (Canonicalize(b) + y)[0];
        Cancel(Canonicalize(a), x, Canonicalize(b), y);
      case (Number(s), Number(t)) => NumberReadsOneWay(s, t, x, y);
      case (Str(s), Str(t)) => QuoteReadsOneWay(s, t, x, y);
      case (Arr(ls), Arr(rs)) =>
        ArraySplits(ls, x);
        ArraySplits(rs, y);
        Cancel([OPEN_BRACKET], AfterBracket(ls, x), [OPEN_BRACKET], AfterBracket(rs, y));
        AfterBracketReadsOneWay(ls, rs, x, y);
      case (Obj(ls), Obj(rs)) =>
        var ka, kb := Sort(DefinedKeys(ls)), Sort(DefinedKeys(rs));
        ObjectSplits(ls, x);
        ObjectSplits(rs, y);
        SortedKeysDefine(ls);
        SortedKeysDefine(rs);
        Cancel([OPEN_BRACE], AfterBrace(ls, ka, x), [OPEN_BRACE], AfterBrace(rs, kb, y));
        AfterBraceReadsOneWay(ls, rs, ka, kb, x, y);
        AlikeKeysAlikeObject(ls, rs);
      case _ =>
    }
  }

  lemma {:induction false} QuoteReadsOneWay(s: Text, t: Text, x: Text, y: Text)
    requires Quote(s) + x == Quote(t) + y
    ensures s == t && x == y
  {
    var s', t' := Escape(s) + [QUOTE] + x, Escape(t) + [QUOTE] + y;
    assert Quote(s) + x == [QUOTE] + s' && Quote(t) + y == [QUOTE] + t';
    Cancel([QUOTE], s', [QUOTE], t');
    EscapeReadsOneWay(s, t, x, y);
  }

  /** What follows the opening bracket of an array printed in front of `x`. */
  function AfterBracket(items: seq<Value>, x: Text): Text {
    if items == [] then [CLOSE_BRACKET] + x else Canonicalize(items[0]) + (MoreItems(items[1..]) + x)
  }

  lemma {:induction false} ArraySplits(items: seq<Value>, x: Text)
    ensures Canonicalize(Arr(items)) + x == [OPEN_BRACKET] + AfterBracket(items, x)
  {
  }

  lemma {:induction false} MoreItemsSplit(items: seq<Value>, x: Text)
    ensures MoreItems(items) + x == if items == [] then [CLOSE_BRACKET] + x else [COMMA] + AfterBracket(items, x)
  {
    if items != [] {
      RegroupRow([COMMA], Canonicalize(items[0]), MoreItems(items[1..]), x);
    }
  }

  lemma {:induction false} FirstAfterBracket(items: seq<Value>, x: Text)
    requires IsPlain(Arr(items)) && Delimited(x)
    ensures AfterBracket(items, x)[0] == CLOSE_BRACKET <==> Vanishes(items)
    ensures Vanishes(items) ==> AfterBracket(items, x) == [CLOSE_BRACKET] + x
  {
    if items != [] {
      MoreItemsSplit(items[1..], x);
      FirstUnitTellsKind(items[0], MoreItems(items[1..]) + x);
      if items[0].Undefined? {
        assert AfterBracket(items, x) == MoreItems(items[1..]) + x;
        assert items[1..] == [] ==> items == [Undefined];
      }
    }
  }

  lemma {:induction false} AfterBracketReadsOneWay(ls: seq<Value>, rs: seq<Value>, x: Text, y: Text)
    requires IsPlain(Arr(ls)) && IsPlain(Arr(rs)) && Delimited(x) && Delimited(y)
    requires AfterBracket(ls, x) == AfterBracket(rs, y)
    ensures Alike(Arr(ls), Arr(rs)) && x == y
    decreases ls, 4
  {
    FirstAfterBracket(ls, x);
    FirstAfterBracket(rs, y);
    if Vanishes(ls) {
      Cancel([CLOSE_BRACKET], x, [CLOSE_BRACKET], y);
    } else {
      SomeItemsReadOneWay(ls, rs, x, y);
      assert ItemsAlike(ls, rs);
    }
  }

  /** Where there is an item on either side there is no doubt. */
  lemma {:induction false} SomeItemsReadOneWay(ls: seq<Value>, rs: seq<Value>, x: Text, y: Text)
    requires IsPlain(Arr(ls)) && IsPlain(Arr(rs)) && Delimited(x) && Delimited(y)
    requires ls != [] && rs != [] && AfterBracket(ls, x) == AfterBracket(rs, y)
    ensures ItemsAlike(ls, rs) && x == y
    decreases ls, 2
  {
    MoreItemsSplit(ls[1..], x);
    MoreItemsSplit(rs[1..], y);
    ReadsOneWay(ls[0], rs[0], MoreItems(ls[1..]) + x, MoreItems(rs[1..]) + y);
    ItemsReadOneWay(ls[1..], rs[1..], x, y);
    assert ls == [ls[0]] + ls[1..] && rs == [rs[0]] + rs[1..];
  }

  lemma {:induction false} ItemsReadOneWay(ls: seq<Value>, rs: seq<Value>, x: Text, y: Text)
    requires IsPlain(Arr(ls)) && IsPlain(Arr(rs)) && Delimited(x) && Delimited(y)
    requires MoreItems(ls) + x == MoreItems(rs) + y
    ensures ItemsAlike(ls, rs) && x == y
    decreases ls, 3
  {
    MoreItemsSplit(ls, x);
    MoreItemsSplit(rs, y);
    assert (MoreItems(ls) + x)[0] == (MoreItems(rs) + y)[0];
    if ls == [] {
      Cancel([CLOSE_BRACKET], x, [CLOSE_BRACKET], y);
    } else {
      Cancel([COMMA], AfterBracket(ls, x), [COMMA], AfterBracket(rs, y));
      SomeItemsReadOneWay(ls, rs, x, y);
    }
  }

  /** What follows the opening brace of an object with these keys, printed in front of `x`. */
  function AfterBrace(fields: seq<Field>, keys: seq<Text>, x: Text): Text {
    if keys == [] then [CLOSE_BRACE] + x else PrintField(fields, keys[0]) + (MoreFields(fields, keys[1..]) + x)
  }

  lemma {:induction false} FirstAfterBrace(fields: seq<Field>, keys: seq<Text>, x: Text)
    ensures AfterBrace(fields, keys, x)[0] == if keys == [] then CLOSE_BRACE else QUOTE
  {
  }

  lemma {:induction false} Regroup(open: Text, first: Text, more: Text, x: Text)
    ensures (open + (first + more)) + x == open + (first + (more + x))
  {
  }

  lemma {:induction false} RegroupRow(open: Text, first: Text, more: Text, x: Text)
    ensures (open + first + more) + x == open + (first + (more + x))
  {
  }

  lemma {:induction false} ObjectSplits(fields: seq<Field>, x: Text)
    ensures Canonicalize(Obj(fields)) + x == [OPEN_BRACE] + AfterBrace(fields, Sort(DefinedKeys(fields)), x)
  {
    var keys := Sort(DefinedKeys(fields));
    if keys != [] {
      Regroup([OPEN_BRACE], PrintField(fields, keys[0]), MoreFields(fields, keys[1..]), x);
    }
  }

  lemma {:induction false} MoreFieldsSplit(fields: seq<Field>, keys: seq<Text>, x: Text)
    ensures MoreFields(fields, keys) + x == if keys == [] then [CLOSE_BRACE] + x else [COMMA] + AfterBrace(fields, keys, x)
  {
    if keys != [] {
      RegroupRow([COMMA], PrintField(fields, keys[0]), MoreFields(fields, keys[1..]), x);
    }
  }

  lemma {:induction false} FieldSplits(fields: seq<Field>, key: Text, x: Text)
    requires HasKey(fields, key)
    ensures PrintField(fields, key) + x == Quote(key) + ([COLON] + (Canonicalize(ValueOf(fields, key)) + x))
  {
  }

  /** The listed keys are defined, with the same values on both sides. */
  ghost predicate AlikeAt(ls: seq<Field>, rs: seq<Field>, keys: seq<Text>) {
    forall k :: k in keys ==> Defines(ls, k) && Defines(rs, k) && Alike(ValueOf(ls, k), ValueOf(rs, k))
  }

  lemma {:induction false} FieldReadsOneWay(ls: seq<Field>, rs: seq<Field>, k: Text, l: Text, x: Text, y: Text)
    requires IsPlain(Obj(ls)) && IsPlain(Obj(rs)) && Delimited(x) && Delimited(y)
    requires Defines(ls, k) && Defines(rs, l) && PrintField(ls, k) + x == PrintField(rs, l) + y
    ensures k == l && Alike(ValueOf(ls, k), ValueOf(rs, k)) && x == y
    decreases ls, 1
  {
    FieldSplits(ls, k, x);
    FieldSplits(rs, l, y);
    var left, right := Canonicalize(ValueOf(ls, k)) + x, Canonicalize(ValueOf(rs, l)) + y;
    QuoteReadsOneWay(k, l, [COLON] + left, [COLON] + right);
    Cancel([COLON], left, [COLON], right);
    ReadsOneWay(ValueOf(ls, k), ValueOf(rs, l), x, y);
  }

  ghost predicate AllDefined(fields: seq<Field>, keys: seq<Text>) {
    forall k :: k in keys ==> Defines(fields, k)
  }

  lemma {:induction false} AfterBraceReadsOneWay(ls: seq<Field>, rs: seq<Field>, ka: seq<Text>, kb: seq<Text>, x: Text, y: Text)
    requires IsPlain(Obj(ls)) && IsPlain(Obj(rs)) && Delimited(x) && Delimited(y)
    requires AllDefined(ls, ka) && AllDefined(rs, kb)
    requires AfterBrace(ls, ka, x) == AfterBrace(rs, kb, y)
    ensures ka == kb && AlikeAt(ls, rs, ka) && x == y
    decreases ls, |ka| + 2, 0
  {
    FirstAfterBrace(ls, ka, x);
    FirstAfterBrace(rs, kb, y);
    if ka == [] || kb == [] {
      Cancel([CLOSE_BRACE], x, [CLOSE_BRACE], y);
    } else {
      MoreFieldsSplit(ls, ka[1..], x);
      MoreFieldsSplit(rs, kb[1..], y);
      FieldReadsOneWay(ls, rs, ka[0], kb[0], MoreFields(ls, ka[1..]) + x, MoreFields(rs, kb[1..]) + y);
      FieldsReadOneWay(ls, rs, ka[1..], kb[1..], x, y);
      assert ka == [ka[0]] + ka[1..] && kb == [kb[0]] + kb[1..];
    }
  }

  lemma {:induction false} FieldsReadOneWay(ls: seq<Field>, rs: seq<Field>, ka: seq<Text>, kb: seq<Text>, x: Text, y: Text)
    requires IsPlain(Obj(ls)) && IsPlain(Obj(rs)) && Delimited(x) && Delimited(y)
    requires AllDefined(ls, ka) && AllDefined(rs, kb)
    requires MoreFields(ls, ka) + x == MoreFields(rs, kb) + y
    ensures ka == kb && AlikeAt(ls, rs, ka) && x == y
    decreases ls, |ka| + 2, 1
  {
    MoreFieldsSplit(ls, ka, x);
    MoreFieldsSplit(rs, kb, y);
    assert (MoreFields(ls, ka) + x)[0] == (MoreFields(rs, kb) + y)[0];
    if ka == [] {
      Cancel([CLOSE_BRACE], x, [CLOSE_BRACE], y);
    } else {
      Cancel([COMMA], AfterBrace(ls, ka, x), [COMMA], AfterBrace(rs, kb, y));
      AfterBraceReadsOneWay(ls, rs, ka, kb, x, y);
    }
  }

  lemma {:induction false} AlikeKeysAlikeObject(ls: seq<Field>, rs: seq<Field>)
    requires DistinctKeys(ls) && DistinctKeys(rs)
    requires Sort(DefinedKeys(ls)) == Sort(DefinedKeys(rs)) && AlikeAt(ls, rs, Sort(DefinedKeys(ls)))
    ensures Alike(Obj(ls), Obj(rs))
  {
    SortedKeysDefine(ls);
    SortedKeysDefine(rs);
    forall k | Defines(ls, k) && Defines(rs, k) ensures Alike(ls[IndexOfKey(ls, k)].value, rs[IndexOfKey(rs, k)].value) {
      assert k in Sort(DefinedKeys(ls));
    }
  }

  // ---------------------------------------------------------------- the order of fields does not show

  lemma {:induction false} AlikePrintsAlike(a: Value, b: Value)
    requires IsItem(a) && IsItem(b) && Alike(a, b)
    ensures Canonicalize(a) == Canonicalize(b)
    decreases a, 1
  {
    match (a, b) {
      case (Arr(ls), Arr(rs)) =>
        if ItemsAlike(ls, rs) {
          if ls != [] {
            AlikePrintsAlike(ls[0], rs[0]);
            AlikeItemsPrintAlike(ls[1..], rs[1..]);
          }
        } else {
          assert MoreItems([]) == [CLOSE_BRACKET];
        }
      case (Obj(ls), Obj(rs)) =>
        SortedKeysDefine(ls);
        SortedKeysDefine(rs);
        var keys := Sort(DefinedKeys(ls));
        AscendingIsUnique(keys, Sort(DefinedKeys(rs)));
        assert AlikeAt(ls, rs, keys);
        if keys != [] {
          AlikeFieldPrintsAlike(ls, rs, keys[0]);
          AlikeFieldsPrintAlike(ls, rs, keys[1..]);
        }
      case _ =>
    }
  }

  lemma {:induction false} AlikeItemsPrintAlike(ls: seq<Value>, rs: seq<Value>)
    requires IsPlain(Arr(ls)) && IsPlain(Arr(rs)) && ItemsAlike(ls, rs)
    ensures MoreItems(ls) == MoreItems(rs)
    decreases ls, 2
  {
    if ls != [] {
      AlikePrintsAlike(ls[0], rs[0]);
      AlikeItemsPrintAlike(ls[1..], rs[1..]);
    }
  }

  lemma {:induction false} AlikeFieldPrintsAlike(ls: seq<Field>, rs: seq<Field>, key: Text)
    requires IsPlain(Obj(ls)) && IsPlain(Obj(rs)) && AlikeAt(ls, rs, [key])
    ensures PrintField(ls, key) == PrintField(rs, key)
    decreases ls, 0
  {
    assert key in [key];
    AlikePrintsAlike(ValueOf(ls, key), ValueOf(rs, key));
  }

  lemma {:induction false} AlikeFieldsPrintAlike(ls: seq<Field>, rs: seq<Field>, keys: seq<Text>)
    requires IsPlain(Obj(ls)) && IsPlain(Obj(rs)) && AlikeAt(ls, rs, keys)
    ensures MoreFields(ls, keys) == MoreFields(rs, keys)
    decreases ls, |keys| + 1
  {
    if keys != [] {
      AlikeFieldPrintsAlike(ls, rs, keys[0]);
      AlikeFieldsPrintAlike(ls, rs, keys[1..]);
    }
  }

  /** Two values print alike exactly when they are alike. */
  lemma {:induction false} CanonicalFormIsExact(a: Value, b: Value)
    requires IsPlain(a) && IsPlain(b)
    ensures Canonicalize(a) == Canonicalize(b) <==> Alike(a, b)
  {
    if Canonicalize(a) == Canonicalize(b) {
      ReadsOneWay(a, b, [], []);
    }
    if Alike(a, b) {
      AlikePrintsAlike(a, b);
    }
  }

  // ---------------------------------------------------------------- the one ambiguity

  /** No array in the value is made of one undefined item. */
  predicate NoLoneUndefined(v: Value)
    decreases v
  {
    match v
    case Arr(items) => items != [Undefined] && forall i :: 0 <= i < |items| ==> NoLoneUndefined(items[i])
    case Obj(fields) => forall i :: 0 <= i < |fields| ==> NoLoneUndefined(fields[i].value)
    case _ => true
  }

  /** Without such arrays, to be alike is to be the same. */
  lemma {:induction false} AlikeIsSame(a: Value, b: Value)
    requires NoLoneUndefined(a) && NoLoneUndefined(b)
    ensures Alike(a, b) <==> Same(a, b)
    decreases a
  {
    match (a, b) {
      case (Arr(ls), Arr(rs)) =>
        if |ls| == |rs| {
          forall i | 0 <= i < |ls| ensures Alike(ls[i], rs[i]) <==> Same(ls[i], rs[i]) {
            AlikeIsSame(ls[i], rs[i]);
          }
        }
      case (Obj(ls), Obj(rs)) =>
        forall k | Defines(ls, k) && Defines(rs, k)
          ensures Alike(ls[IndexOfKey(ls, k)].value, rs[IndexOfKey(rs, k)].value)
             <==> Same(ls[IndexOfKey(ls, k)].value, rs[IndexOfKey(rs, k)].value)
        {
          AlikeIsSame(ls[IndexOfKey(ls, k)].value, rs[IndexOfKey(rs, k)].value);
        }
      case _ =>
    }
  }

  /** The value with every such array emptied. */
  function Mend(v: Value): Value
    decreases v
  {
    match v
    case Arr(items) =>
      if items == [Undefined] then Arr([]) else Arr(seq(|items|, i requires 0 <= i < |items| => Mend(items[i])))
    case Obj(fields) => Obj(MendFields(fields))
    case _ => v
  }

  function MendFields(fields: seq<Field>): (mended: seq<Field>)
    ensures |mended| == |fields|
    ensures forall i :: 0 <= i < |fields| ==> mended[i] == Field(fields[i].key, Mend(fields[i].value))
    decreases fields
  {
    seq(|fields|, i requires 0 <= i < |fields| => Field(fields[i].key, Mend(fields[i].value)))
  }

  lemma {:induction false} MendKeepsUndefined(v: Value)
    ensures Mend(v).Undefined? <==> v.Undefined?
  {
  }

  lemma {:induction false} MendedKeys(fields: seq<Field>)
    requires DistinctKeys(fields)
    ensures DistinctKeys(MendFields(fields))
    ensures forall k :: Defines(MendFields(fields), k) <==> Defines(fields, k)
    ensures forall k :: Defines(fields, k) ==> IndexOfKey(MendFields(fields), k) == IndexOfKey(fields, k)
  {
    var mended := MendFields(fields);
    forall k ensures HasKey(mended, k) <==> HasKey(fields, k) {
      if HasKey(fields, k) {
        assert mended[IndexOfKey(fields, k)].key == k;
      }
      if HasKey(mended, k) {
        assert fields[IndexOfKey(mended, k)].key == k;
      }
    }
    forall k | HasKey(fields, k)
      ensures IndexOfKey(mended, k) == IndexOfKey(fields, k) && (Defines(mended, k) <==> Defines(fields, k))
    {
      assert fields[IndexOfKey(mended, k)].key == k;
      MendKeepsUndefined(fields[IndexOfKey(fields, k)].value);
    }
  }

  /** A mended value prints as it did, and is the same only if there was nothing to mend. */
  lemma {:induction false} MendIsAlike(v: Value)
    requires IsItem(v)
    ensures IsItem(Mend(v)) && NoLoneUndefined(Mend(v)) && Alike(v, Mend(v))
    ensures Same(v, Mend(v)) ==> NoLoneUndefined(v)
    decreases v
  {
    match v {
      case Arr(items) =>
        forall i | 0 <= i < |items|
          ensures IsItem(Mend(items[i])) && NoLoneUndefined(Mend(items[i])) && Alike(items[i], Mend(items[i]))
          ensures (Mend(items[i]).Undefined? <==> items[i].Undefined?) && (Same(items[i], Mend(items[i])) ==> NoLoneUndefined(items[i]))
        {
          MendIsAlike(items[i]);
          MendKeepsUndefined(items[i]);
        }
        if items != [Undefined] && |items| == 1 {
          assert Mend(v).items[0] == Mend(items[0]) && items == [items[0]];
        }
      case Obj(fields) =>
        MendedKeys(fields);
        forall i | 0 <= i < |fields|
          ensures IsItem(Mend(fields[i].value)) && NoLoneUndefined(Mend(fields[i].value)) && Alike(fields[i].value, Mend(fields[i].value))
          ensures Same(fields[i].value, Mend(fields[i].value)) ==> NoLoneUndefined(fields[i].value)
        {
          MendIsAlike(fields[i].value);
        }
        if Same(v, Mend(v)) {
          forall i | 0 <= i < |fields| ensures NoLoneUndefined(fields[i].value) {
            FieldIsMended(fields, i);
          }
        }
      case _ =>
    }
  }

  lemma {:induction false} FieldIsMended(fields: seq<Field>, i: nat)
    requires DistinctKeys(fields) && i < |fields| && Same(Obj(fields), Obj(MendFields(fields)))
    ensures fields[i].value.Undefined? || Same(fields[i].value, Mend(fields[i].value))
  {
    MendedKeys(fields);
    var k := fields[i].key;
    assert HasKey(fields, k) && IndexOfKey(fields, k) == i;
    assert Defines(fields, k) <==> !fields[i].value.Undefined?;
  }

  /**
   Among the values without an array of one undefined item, the print tells each from every other;
   from them, a value is told by its print exactly when it has no such array itself.
   */
  lemma {:induction false} PrintIdentifies(a: Value)
    requires IsPlain(a)
    ensures (forall b :: IsPlain(b) && NoLoneUndefined(b) && Canonicalize(a) == Canonicalize(b) ==> Same(a, b)) <==> NoLoneUndefined(a)
  {
    if NoLoneUndefined(a) {
      forall b | IsPlain(b) && NoLoneUndefined(b) && Canonicalize(a) == Canonicalize(b) ensures Same(a, b) {
        CanonicalFormIsExact(a, b);
        AlikeIsSame(a, b);
      }
    } else {
      MendIsAlike(a);
      MendKeepsUndefined(a);
      CanonicalFormIsExact(a, Mend(a));
      assert IsPlain(Mend(a)) && !Same(a, Mend(a));
    }
  }

  /** The shortest instance: an array of one undefined item prints as an empty one; with more items there is no doubt. */
  lemma {:induction false} UndefinedItemIsLost()
    ensures Canonicalize(Arr([Undefined])) == Canonicalize(Arr([])) && !Same(Arr([Undefined]), Arr([]))
    ensures Canonicalize(Arr([Undefined, Null])) != Canonicalize(Arr([Null]))
  {
    assert Vanishes([]) && Vanishes([Undefined]);
    CanonicalFormIsExact(Arr([Undefined]), Arr([]));
    CanonicalFormIsExact(Arr([Undefined, Null]), Arr([Null]));
  }

  // ---------------------------------------------------------------- the action digest

  /** SHA-256 in hexadecimal; taken to be free of collisions. */
  datatype Digest = Sha256Of(text: Text)

  datatype DigestInput = DigestInput(
    runId: Text, action: Value, decisionId: Text, policyId: Text, risk: Text, expiresAt: Text)

  function Ascii(s: string): (t: Text)
    ensures |t| == |s|
  {
    seq(|s|, i requires 0 <= i < |s| => (s[i] as int) % 65536)
  }

  function DigestRecord(input: DigestInput): seq<Field> {
    [Field(Ascii("schema"), Str(Ascii("qualigence-runner-policy-action-digest/v1"))),
     Field(Ascii("runId"), Str(input.runId)),
     Field(Ascii("action"), input.action),
     Field(Ascii("decisionId"), Str(input.decisionId)),
     Field(Ascii("policyId"), Str(input.policyId)),
     Field(Ascii("risk"), Str(input.risk)),
     Field(Ascii("expiresAt"), Str(input.expiresAt))]
  }

  function ActionDigest(input: DigestInput): Digest {
    Sha256Of(Canonicalize(Obj(DigestRecord(input))))
  }

  /** Objects with the same keys in the same places are alike exactly when their values are. */
  lemma {:induction false} AlikeFieldByField(ls: seq<Field>, rs: seq<Field>)
    requires DistinctKeys(ls) && DistinctKeys(rs) && |ls| == |rs|
    requires forall i :: 0 <= i < |ls| ==> ls[i].key == rs[i].key && !ls[i].value.Undefined? && !rs[i].value.Undefined?
    ensures Alike(Obj(ls), Obj(rs)) <==> forall i :: 0 <= i < |ls| ==> Alike(ls[i].value, rs[i].value)
  {
    forall i | 0 <= i < |ls|
      ensures HasKey(ls, ls[i].key) && HasKey(rs, ls[i].key)
      ensures IndexOfKey(ls, ls[i].key) == i && IndexOfKey(rs, ls[i].key) == i
    {
      assert HasKey(ls, ls[i].key) && HasKey(rs, rs[i].key);
    }
    forall k ensures HasKey(ls, k) <==> HasKey(rs, k) {
      if HasKey(ls, k) {
        assert rs[IndexOfKey(ls, k)].key == k;
      }
      if HasKey(rs, k) {
        assert ls[IndexOfKey(rs, k)].key == k;
      }
    }
    if Alike(Obj(ls), Obj(rs)) {
      forall i | 0 <= i < |ls| ensures Alike(ls[i].value, rs[i].value) {
        assert Defines(ls, ls[i].key) && Defines(rs, ls[i].key);
      }
    }
  }

  lemma {:induction false} DigestRecordIsPlain(input: DigestInput)
    requires IsPlain(input.action)
    ensures DistinctKeys(DigestRecord(input)) && IsPlain(Obj(DigestRecord(input)))
  {
    assert Ascii("schema")[0] == 115 && Ascii("action")[0] == 97;
  }

  predicate SameInput(a: DigestInput, b: DigestInput) {
    a.runId == b.runId && a.decisionId == b.decisionId && a.policyId == b.policyId && a.risk == b.risk && a.expiresAt == b.expiresAt
  }

  lemma {:induction false} RecordsFieldByField(a: DigestInput, b: DigestInput)
    ensures var ls, rs := DigestRecord(a), DigestRecord(b);
      (forall i :: 0 <= i < |ls| ==> Alike(ls[i].value, rs[i].value)) <==> SameInput(a, b) && Alike(a.action, b.action)
  {
    var ls, rs := DigestRecord(a), DigestRecord(b);
    assert Alike(ls[1].value, rs[1].value) <==> a.runId == b.runId;
    assert Alike(ls[2].value, rs[2].value) <==> Alike(a.action, b.action);
    assert Alike(ls[3].value, rs[3].value) <==> a.decisionId == b.decisionId;
    assert Alike(ls[4].value, rs[4].value) <==> a.policyId == b.policyId;
    assert Alike(ls[5].value, rs[5].value) <==> a.risk == b.risk;
    assert Alike(ls[6].value, rs[6].value) <==> a.expiresAt == b.expiresAt;
  }

  ghost predicate SameLayout(ls: seq<Field>, rs: seq<Field>) {
    |ls| == |rs| && forall i :: 0 <= i < |ls| ==> ls[i].key == rs[i].key && !ls[i].value.Undefined? && !rs[i].value.Undefined?
  }

  lemma {:induction false} ObjectsPrintAlike(ls: seq<Field>, rs: seq<Field>)
    requires IsPlain(Obj(ls)) && IsPlain(Obj(rs)) && SameLayout(ls, rs)
    ensures Canonicalize(Obj(ls)) == Canonicalize(Obj(rs)) <==> forall i :: 0 <= i < |ls| ==> Alike(ls[i].value, rs[i].value)
  {
    CanonicalFormIsExact(Obj(ls), Obj(rs));
    AlikeFieldByField(ls, rs);
  }

  lemma {:induction false} RecordsHaveOneLayout(a: DigestInput, b: DigestInput)
    requires IsPlain(a.action) && IsPlain(b.action)
    ensures SameLayout(DigestRecord(a), DigestRecord(b))
  {
  }

  /** Two digests agree exactly when they were taken of alike actions under the same decision and policy. */
  lemma {:induction false} DigestIdentifiesAction(a: DigestInput, b: DigestInput)
    requires IsPlain(a.action) && IsPlain(b.action)
    ensures ActionDigest(a) == ActionDigest(b) <==> SameInput(a, b) && Alike(a.action, b.action)
  {
    var ls, rs := DigestRecord(a), DigestRecord(b);
    DigestRecordIsPlain(a);
    DigestRecordIsPlain(b);
    RecordsHaveOneLayout(a, b);
    ObjectsPrintAlike(ls, rs);
    RecordsFieldByField(a, b);
  }

  /** For actions without an array of one undefined item, the same action. */
  lemma {:induction false} DigestIdentifiesMendedAction(a: DigestInput, b: DigestInput)
    requires IsPlain(a.action) && IsPlain(b.action) && NoLoneUndefined(a.action) && NoLoneUndefined(b.action)
    ensures ActionDigest(a) == ActionDigest(b) <==> SameInput(a, b) && Same(a.action, b.action)
  {
    DigestIdentifiesAction(a, b);
    AlikeIsSame(a.action, b.action);
  }
}
