/**
 The parser of the action value configuration: one flat JSON object of strings, scanned by hand so
 that a duplicate reference is an error.  Texts are sequences of UTF-16 code units.
 */
module ActionValueConfiguration {
  import opened Wrappers
  import opened CodeUnits

  datatype ParseError =
    | NotAnObject
    | NotAString
    | IncompleteString
    | MalformedString
    | MissingColon
    | DuplicateRef
    | MissingComma
    | TrailingData
    | Incomplete

  /** White space as a JavaScript regular expression has it, which is more than JSON allows. */
  predicate IsSpace(u: Unit) {
    9 <= u <= 13 || u in {0x20, 0xA0, 0x1680, 0x2028, 0x2029, 0x202F, 0x205F, 0x3000, 0xFEFF} || 0x2000 <= u <= 0x200A
  }

  // ---------------------------------------------------------------- string bodies

  function HexValue(u: Unit): (r: Option<int>)
    ensures r.Some? ==> 0 <= r.value < 16
  {
    if 48 <= u <= 57 then Some(u - 48)
    else if 97 <= u <= 102 then Some(u - 87)
    else if 65 <= u <= 70 then Some(u - 55)
    else None
  }

  /** The code unit a one-letter escape stands for. */
  function ShortEscape(u: Unit): Option<Unit> {
    if u == QUOTE || u == BACKSLASH || u == 47 then Some(u)
    else if u == 98 then Some(8)
    else if u == 102 then Some(12)
    else if u == 110 then Some(10)
    else if u == 114 then Some(13)
    else if u == 116 then Some(9)
    else None
  }

  function Hex4Value(t: Text): Option<Unit>
    requires |t| == 4
  {
    var a, b, c, d := HexValue(t[0]), HexValue(t[1]), HexValue(t[2]), HexValue(t[3]);
    if a.Some? && b.Some? && c.Some? && d.Some? then Some(((a.value * 16 + b.value) * 16 + c.value) * 16 + d.value) else None
  }

  /** What a JSON string with this body denotes, if it is one. */
  function Decode(body: Text): Option<Text> {
    if body == [] then Some([])
    else if body[0] == QUOTE || body[0] < 32 then None
    else if body[0] != BACKSLASH then
      match Decode(body[1..]) case None => None case Some(rest) => Some([body[0]] + rest)
    else if |body| < 2 then None
    else if body[1] == LETTER_U then
      if |body| < 6 || Hex4Value(body[2..6]).None? then None
      else match Decode(body[6..]) case None => None case Some(rest) => Some([Hex4Value(body[2..6]).value] + rest)
    else if ShortEscape(body[1]).None? then None
    else match Decode(body[2..]) case None => None case Some(rest) => Some([ShortEscape(body[1]).value] + rest)
  }

  /** The offset of the closing quote in the text behind the opening one. */
  function CloseAt(t: Text, escaped: bool): Option<nat> {
    if t == [] then None
    else if !escaped && t[0] == QUOTE then Some(0)
    else match CloseAt(t[1..], !escaped && t[0] == BACKSLASH) case None => None case Some(i) => Some(i + 1)
  }

  // ---------------------------------------------------------------- the parser as a function of what is left

  function Skip(t: Text): (r: Text)
    ensures |r| <= |t|
  {
    if t != [] && IsSpace(t[0]) then Skip(t[1..]) else t
  }

  predicate StartsWith(t: Text, u: Unit) {
    t != [] && t[0] == u
  }

  datatype Parsed = Parsed(value: Text, rest: Text)

  lemma {:induction false} CloseAtIsInside(t: Text, escaped: bool)
    ensures CloseAt(t, escaped).Some? ==> CloseAt(t, escaped).value < |t| && t[CloseAt(t, escaped).value] == QUOTE
  {
    if t != [] {
      CloseAtIsInside(t[1..], !escaped && t[0] == BACKSLASH);
    }
  }

  function ParseString(t: Text): (r: Result<Parsed, ParseError>)
    ensures r.Ok? ==> |r.value.rest| < |t|
  {
    if !StartsWith(t, QUOTE) then Err(NotAString)
    else
      match CloseAt(t[1..], false)
      case None => Err(IncompleteString)
      case Some(i) =>
        CloseAtIsInside(t[1..], false);
        match Decode(t[1..i + 1])
        case None => Err(MalformedString)
        case Some(value) => Ok(Parsed(value, t[i + 2..]))
  }

  datatype ParsedEntry = ParsedEntry(key: Text, value: Text, rest: Text)

  /** Key, colon and value, with the white space up to what follows. */
  function ParseEntry(t: Text): (r: Result<ParsedEntry, ParseError>)
    ensures r.Ok? ==> |r.value.rest| < |t|
  {
    match ParseString(t)
    case Err(error) => Err(error)
    case Ok(key) =>
      var atColon := Skip(key.rest);
      if !StartsWith(atColon, COLON) then Err(MissingColon)
      else
        match ParseString(Skip(atColon[1..]))
        case Err(error) => Err(error)
        case Ok(value) => Ok(ParsedEntry(key.value, value.value, Skip(value.rest)))
  }

  function ParseEntries(t: Text, entries: map<Text, Text>): Result<map<Text, Text>, ParseError>
    decreases |t|
  {
    if t == [] then Err(Incomplete)
    else
      match ParseEntry(t)
      case Err(error) => Err(error)
      case Ok(entry) =>
        if entry.key in entries then Err(DuplicateRef)
        else
          var more := entries[entry.key := entry.value];
          if StartsWith(entry.rest, CLOSE_BRACE) then
            if Skip(entry.rest[1..]) == [] then Ok(more) else Err(TrailingData)
          else if !StartsWith(entry.rest, COMMA) then Err(MissingComma)
          else ParseEntries(Skip(entry.rest[1..]), more)
  }

  function Parse(source: Text): Result<map<Text, Text>, ParseError> {
    var t := Skip(source);
    if !StartsWith(t, OPEN_BRACE) then Err(NotAnObject)
    else
      var inside := Skip(t[1..]);
      if StartsWith(inside, CLOSE_BRACE) then
        if Skip(inside[1..]) == [] then Ok(map[]) else Err(TrailingData)
      else ParseEntries(inside, map[])
  }

  // ---------------------------------------------------------------- the parser as it runs

  method SkipWhitespace(source: Text, offset: nat) returns (next: nat)
    requires offset <= |source|
    ensures offset <= next <= |source| && source[next..] == Skip(source[offset..])
  {
    next := offset;
    while next < |source| && IsSpace(source[next])
      invariant offset <= next <= |source| && Skip(source[next..]) == Skip(source[offset..])
    {
      assert source[next..][1..] == source[next + 1..];
      next := next + 1;
    }
  }

  method ParseJsonString(source: Text, offset: nat) returns (r: Result<(Text, nat), ParseError>)
    requires offset <= |source|
    ensures match ParseString(source[offset..])
            case Err(error) => r == Err(error)
            case Ok(parsed) => r.Ok? && r.value.0 == parsed.value && offset < r.value.1 <= |source| && source[r.value.1..] == parsed.rest
  {
    if offset >= |source| || source[offset] != QUOTE {
      return Err(NotAString);
    }
    assert source[offset..][1..] == source[offset + 1..];
    var escaped := false;
    var index := offset + 1;
    while index < |source|
      invariant offset < index <= |source|
      invariant CloseAt(source[offset + 1..], false) ==
        match CloseAt(source[index..], escaped) case None => None case Some(i) => Some(i + index - offset - 1)
    {
      assert source[index..][1..] == source[index + 1..];
      var character := source[index];
      if !escaped && character == QUOTE {
        var body := source[offset + 1..index];
        assert source[offset..][1..index - offset] == body;
        match Decode(body) {
          case None => return Err(MalformedString);
          case Some(value) => return Ok((value, index + 1));
        }
      }
      escaped := !escaped && character == BACKSLASH;
      index := index + 1;
    }
    return Err(IncompleteString);
  }

  /** One entry of the loop: key, colon, value, and the white space behind. */
  method ParsePair(source: Text, offset: nat) returns (r: Result<(Text, Text, nat), ParseError>)
    requires offset <= |source|
    ensures match ParseEntry(source[offset..])
            case Err(error) => r == Err(error)
            case Ok(entry) =>
              && r.Ok? && r.value.0 == entry.key && r.value.1 == entry.value
              && offset < r.value.2 <= |source| && source[r.value.2..] == entry.rest
  {
    var key := ParseJsonString(source, offset);
    if key.Err? {
      return Err(key.error);
    }
    var next := SkipWhitespace(source, key.value.1);
    if next >= |source| || source[next] != COLON {
      return Err(MissingColon);
    }
    assert source[next..][1..] == source[next + 1..];
    next := SkipWhitespace(source, next + 1);
    var value := ParseJsonString(source, next);
    if value.Err? {
      return Err(value.error);
    }
    next := SkipWhitespace(source, value.value.1);
    return Ok((key.value.0, value.value.0, next));
  }

  /** Behind the closing brace only white space may follow. */
  method NothingBehind(source: Text, offset: nat) returns (r: bool)
    requires offset < |source|
    ensures r <==> Skip(source[offset..][1..]) == []
  {
    assert source[offset..][1..] == source[offset + 1..];
    var end := SkipWhitespace(source, offset + 1);
    return end == |source|;
  }

  method ParseConfiguration(source: Text) returns (r: Result<map<Text, Text>, ParseError>)
    ensures r == Parse(source)
  {
    assert source[0..] == source;
    var offset := SkipWhitespace(source, 0);
    if offset >= |source| || source[offset] != OPEN_BRACE {
      return Err(NotAnObject);
    }
    assert source[offset..][1..] == source[offset + 1..];
    offset := SkipWhitespace(source, offset + 1);
    if offset < |source| && source[offset] == CLOSE_BRACE {
      var ended := NothingBehind(source, offset);
      return if ended then Ok(map[]) else Err(TrailingData);
    }
    r := ParseLoop(source, offset);
  }

  method ParseLoop(source: Text, start: nat) returns (r: Result<map<Text, Text>, ParseError>)
    requires start <= |source|
    ensures r == ParseEntries(source[start..], map[])
  {
    var offset := start;
    var entries: map<Text, Text> := map[];
    while offset < |source|
      invariant start <= offset <= |source|
      invariant ParseEntries(source[start..], map[]) == ParseEntries(source[offset..], entries)
    {
      var pair := ParsePair(source, offset);
      if pair.Err? {
        return Err(pair.error);
      }
      var (key, value, next) := pair.value;
      if key in entries {
        return Err(DuplicateRef);
      }
      entries := entries[key := value];
      if next < |source| && source[next] == CLOSE_BRACE {
        var ended := NothingBehind(source, next);
        return if ended then Ok(entries) else Err(TrailingData);
      }
      if next >= |source| || source[next] != COMMA {
        return Err(MissingComma);
      }
      assert source[next..][1..] == source[next + 1..];
      offset := SkipWhitespace(source, next + 1);
    }
    return Err(Incomplete);
  }

  // ---------------------------------------------------------------- where a string ends

  /** How many backslashes stand right before the end. */
  function TrailingBackslashes(t: Text): nat {
    if t == [] || t[|t| - 1] != BACKSLASH then 0 else 1 + TrailingBackslashes(t[..|t| - 1])
  }

  predicate EndsString(t: Text, i: nat)
  {
    i < |t| && t[i] == QUOTE && TrailingBackslashes(t[..i]) % 2 == 0
  }

  lemma {:induction false} CloseAtFrom(before: Text, t: Text)
    ensures match CloseAt(t, TrailingBackslashes(before) % 2 == 1)
            case Some(i) => EndsString(before + t, |before| + i) && forall j :: |before| <= j < |before| + i ==> !EndsString(before + t, j)
            case None => forall j :: |before| <= j < |before + t| ==> !EndsString(before + t, j)
    decreases |t|
  {
    var escaped := TrailingBackslashes(before) % 2 == 1;
    if t != [] {
      var next := before + [t[0]];
      assert next[..|before|] == before;
      assert next + t[1..] == before + t;
      assert (before + t)[..|before|] == before;
      CloseAtFrom(next, t[1..]);
      assert (TrailingBackslashes(next) % 2 == 1) == (!escaped && t[0] == BACKSLASH);
    }
  }

  /** The scanner stops at the first quote that an even number of backslashes precedes. */
  lemma {:induction false} StringEndsAtFirstUnescapedQuote(t: Text, i: nat)
    ensures CloseAt(t, false) == Some(i) <==> EndsString(t, i) && forall j :: 0 <= j < i ==> !EndsString(t, j)
  {
    CloseAtFrom([], t);
    assert [] + t == t;
  }

  // ---------------------------------------------------------------- all the ways to write a configuration

  /** How one code unit of a string is written. */
  datatype Form = Raw | Short(letter: Unit) | Hex(digits: Text)

  predicate Writes(form: Form, u: Unit) {
    match form
    case Raw => u != QUOTE && u != BACKSLASH && u >= 32
    case Short(letter) => ShortEscape(letter) == Some(u)
    case Hex(digits) => |digits| == 4 && Hex4Value(digits) == Some(u)
  }

  function FormText(form: Form, u: Unit): Text {
    match form
    case Raw => [u]
    case Short(letter) => [BACKSLASH, letter]
    case Hex(digits) => [BACKSLASH, LETTER_U] + digits
  }

  datatype Token = Token(value: Text, forms: seq<Form>)

  predicate ValidToken(t: Token) {
    |t.forms| == |t.value| && forall i :: 0 <= i < |t.value| ==> Writes(t.forms[i], t.value[i])
  }

  function Tail(t: Token): Token
    requires t.value != [] && t.forms != []
  {
    Token(t.value[1..], t.forms[1..])
  }

  function Body(t: Token): Text
    decreases |t.value|
  {
    if t.value == [] || t.forms == [] then [] else FormText(t.forms[0], t.value[0]) + Body(Tail(t))
  }

  function TokenText(t: Token): Text {
    [QUOTE] + Body(t) + [QUOTE]
  }

  predicate IsSpaces(t: Text) {
    forall i :: 0 <= i < |t| ==> IsSpace(t[i])
  }

  /** One entry with the white space before the key, around the colon and behind the value. */
  datatype Entry = Entry(before: Text, key: Token, s1: Text, s2: Text, value: Token, s3: Text)

  predicate ValidEntry(e: Entry) {
    ValidToken(e.key) && ValidToken(e.value) && IsSpaces(e.before) && IsSpaces(e.s1) && IsSpaces(e.s2) && IsSpaces(e.s3)
  }

  function EntryText(e: Entry): Text {
    TokenText(e.key) + (e.s1 + ([COLON] + (e.s2 + (TokenText(e.value) + e.s3))))
  }

  function EntriesText(entries: seq<Entry>): Text
    requires entries != []
  {
    entries[0].before + (EntryText(entries[0]) + if |entries| == 1 then [CLOSE_BRACE] else [COMMA] + EntriesText(entries[1..]))
  }

  datatype Document = Document(lead: Text, entries: seq<Entry>, inside: Text, trail: Text)

  predicate ValidDocument(d: Document) {
    && IsSpaces(d.lead) && IsSpaces(d.inside) && IsSpaces(d.trail)
    && forall i :: 0 <= i < |d.entries| ==> ValidEntry(d.entries[i])
  }

  function Render(d: Document): Text {
    d.lead + ([OPEN_BRACE] + ((if d.entries == [] then d.inside + [CLOSE_BRACE] else EntriesText(d.entries)) + d.trail))
  }

  predicate DistinctKeys(entries: seq<Entry>) {
    forall i, j :: 0 <= i < j < |entries| ==> entries[i].key.value != entries[j].key.value
  }

  /** The map that has every entry, and nothing else. */
  ghost predicate IsMapOf(m: map<Text, Text>, entries: seq<Entry>) {
    && (forall i :: 0 <= i < |entries| ==> entries[i].key.value in m && m[entries[i].key.value] == entries[i].value.value)
    && (forall k :: k in m ==> exists i :: 0 <= i < |entries| && entries[i].key.value == k)
  }

  // ---------------------------------------------------------------- what is written is read

  lemma {:induction false} FormReadsBack(form: Form, u: Unit, more: Text)
    requires Writes(form, u)
    ensures var text := FormText(form, u) + more;
      && Decode(text) == (match Decode(more) case None => None case Some(rest) => Some([u] + rest))
      && CloseAt(text, false) == (match CloseAt(more, false) case None => None case Some(i) => Some(i + |FormText(form, u)|))
  {
    var text := FormText(form, u) + more;
    match form {
      case Raw =>
        assert text[1..] == more;
      case Short(letter) =>
        assert text[2..] == more;
        assert text[1..] == [letter] + more && text[1..][1..] == more;
      case Hex(digits) =>
        assert text[2..6] == digits && text[6..] == more;
        HexDigitsAreSkipped(digits, more);
        assert text[1..] == [LETTER_U] + (digits + more) && text[1..][1..] == digits + more;
    }
  }

  lemma {:induction false} HexDigitsAreSkipped(digits: Text, more: Text)
    requires |digits| == 4 && Hex4Value(digits).Some?
    ensures CloseAt(digits + more, false) == (match CloseAt(more, false) case None => None case Some(i) => Some(i + 4))
  {
    var a, b, c := digits[1..] + more, digits[2..] + more, digits[3..] + more;
    PlainIsSkipped(digits[3], more);
    PlainIsSkipped(digits[2], c);
    PlainIsSkipped(digits[1], b);
    PlainIsSkipped(digits[0], a);
    assert digits + more == [digits[0]] + a && a == [digits[1]] + b && b == [digits[2]] + c && c == [digits[3]] + more;
  }

  lemma {:induction false} PlainIsSkipped(u: Unit, more: Text)
    requires u != QUOTE && u != BACKSLASH
    ensures CloseAt([u] + more, false) == (match CloseAt(more, false) case None => None case Some(i) => Some(i + 1))
  {
    assert ([u] + more)[1..] == more;
  }

  lemma {:induction false} BodyReadsBack(t: Token, rest: Text)
    requires ValidToken(t)
    ensures Decode(Body(t)) == Some(t.value) && CloseAt(Body(t) + ([QUOTE] + rest), false) == Some(|Body(t)|)
    decreases |t.value|
  {
    if t.value == [] {
      assert Body(t) + ([QUOTE] + rest) == [QUOTE] + rest;
    } else {
      BodyReadsBack(Tail(t), rest);
      FormReadsBack(t.forms[0], t.value[0], Body(Tail(t)));
      FormReadsBack(t.forms[0], t.value[0], Body(Tail(t)) + ([QUOTE] + rest));
      assert Body(t) + ([QUOTE] + rest) == FormText(t.forms[0], t.value[0]) + (Body(Tail(t)) + ([QUOTE] + rest));
      assert [t.value[0]] + t.value[1..] == t.value;
    }
  }

  lemma {:induction false} TokenReadsBack(t: Token, rest: Text)
    requires ValidToken(t)
    ensures ParseString(TokenText(t) + rest) == Ok(Parsed(t.value, rest))
  {
    BodyReadsBack(t, rest);
    var text := TokenText(t) + rest;
    var n := |Body(t)|;
    assert text[1..] == Body(t) + ([QUOTE] + rest);
    assert text[1..n + 1] == Body(t) && text[n + 2..] == rest;
  }

  lemma {:induction false} SpacesAreSkipped(spaces: Text, t: Text)
    requires IsSpaces(spaces)
    ensures Skip(spaces + t) == Skip(t)
  {
    if spaces == [] {
      assert spaces + t == t;
    } else {
      assert (spaces + t)[1..] == spaces[1..] + t;
      SpacesAreSkipped(spaces[1..], t);
    }
  }

  lemma {:induction false} EntryReadsBack(e: Entry, rest: Text)
    requires ValidEntry(e) && rest != [] && !IsSpace(rest[0])
    ensures ParseEntry(EntryText(e) + rest) == Ok(ParsedEntry(e.key.value, e.value.value, rest))
  {
    var afterValue := e.s3 + rest;
    var atValue := TokenText(e.value) + afterValue;
    var atColon := [COLON] + (e.s2 + atValue);
    TokenReadsBack(e.value, afterValue);
    TokenReadsBack(e.key, e.s1 + atColon);
    SpacesAreSkipped(e.s1, atColon);
    SpacesAreSkipped(e.s2, atValue);
    SpacesAreSkipped(e.s3, rest);
    assert atColon[1..] == e.s2 + atValue;
    RegroupEntry(e, rest);
  }

  lemma {:induction false} RegroupEntry(e: Entry, rest: Text)
    ensures EntryText(e) + rest == TokenText(e.key) + (e.s1 + ([COLON] + (e.s2 + (TokenText(e.value) + (e.s3 + rest)))))
  {
    var a, b := TokenText(e.key), TokenText(e.value);
    Assoc(a, e.s1 + ([COLON] + (e.s2 + (b + e.s3))), rest);
    Assoc(e.s1, [COLON] + (e.s2 + (b + e.s3)), rest);
    Assoc([COLON], e.s2 + (b + e.s3), rest);
    Assoc(e.s2, b + e.s3, rest);
    Assoc(b, e.s3, rest);
  }

  lemma {:induction false} Assoc(a: Text, b: Text, c: Text)
    ensures (a + b) + c == a + (b + c)
  {
  }

  /** What stands behind the white space of the first entry. */
  function BehindFirst(entries: seq<Entry>, trail: Text): Text
    requires entries != []
  {
    if |entries| == 1 then [CLOSE_BRACE] + trail else [COMMA] + (EntriesText(entries[1..]) + trail)
  }

  lemma {:induction false} RegroupEntries(entries: seq<Entry>, trail: Text)
    requires entries != []
    ensures EntriesText(entries) + trail == entries[0].before + (EntryText(entries[0]) + BehindFirst(entries, trail))
  {
    var e := entries[0];
    var tail := if |entries| == 1 then [CLOSE_BRACE] else [COMMA] + EntriesText(entries[1..]);
    Assoc(e.before, EntryText(e) + tail, trail);
    Assoc(EntryText(e), tail, trail);
    if |entries| > 1 {
      Assoc([COMMA], EntriesText(entries[1..]), trail);
    }
  }

  lemma {:induction false} FirstEntryReadsBack(entries: seq<Entry>, trail: Text)
    requires entries != [] && ValidEntry(entries[0])
    ensures var t := Skip(EntriesText(entries) + trail);
      t != [] && ParseEntry(t) == Ok(ParsedEntry(entries[0].key.value, entries[0].value.value, BehindFirst(entries, trail)))
  {
    var e := entries[0];
    var behind := BehindFirst(entries, trail);
    RegroupEntries(entries, trail);
    SpacesAreSkipped(e.before, EntryText(e) + behind);
    assert (EntryText(e) + behind)[0] == QUOTE;
    EntryReadsBack(e, behind);
  }

  /** Entries read back one by one until a key comes up again. */
  lemma {:induction false} EntriesReadBack(entries: seq<Entry>, trail: Text, m: map<Text, Text>)
    requires entries != [] && IsSpaces(trail) && forall i :: 0 <= i < |entries| ==> ValidEntry(entries[i])
    ensures ParseEntries(Skip(EntriesText(entries) + trail), m) ==
      match Collect(entries, m) case None => Err(DuplicateRef) case Some(all) => Ok(all)
    decreases |entries|
  {
    FirstEntryReadsBack(entries, trail);
    var behind := BehindFirst(entries, trail);
    if |entries| == 1 {
      assert behind[1..] == trail;
      SpacesAreSkipped(trail, []);
      assert trail + [] == trail;
      assert entries[1..] == [];
    } else {
      assert behind[1..] == EntriesText(entries[1..]) + trail;
      if entries[0].key.value !in m {
        EntriesReadBack(entries[1..], trail, m[entries[0].key.value := entries[0].value.value]);
      }
    }
  }

  function Collect(entries: seq<Entry>, m: map<Text, Text>): Option<map<Text, Text>> {
    if entries == [] then Some(m)
    else if entries[0].key.value in m then None
    else Collect(entries[1..], m[entries[0].key.value := entries[0].value.value])
  }

  lemma {:induction false} CollectIsMapOf(entries: seq<Entry>, m: map<Text, Text>)
    ensures Collect(entries, m).Some? <==> DistinctKeys(entries) && forall i :: 0 <= i < |entries| ==> entries[i].key.value !in m
    ensures Collect(entries, m).Some? ==> forall k :: k in m ==> k in Collect(entries, m).value && Collect(entries, m).value[k] == m[k]
    ensures Collect(entries, m).Some? ==> forall i :: 0 <= i < |entries| ==>
      entries[i].key.value in Collect(entries, m).value && Collect(entries, m).value[entries[i].key.value] == entries[i].value.value
    ensures Collect(entries, m).Some? ==> forall k :: k in Collect(entries, m).value ==>
      k in m || exists i :: 0 <= i < |entries| && entries[i].key.value == k
    decreases |entries|
  {
    if entries != [] && entries[0].key.value !in m {
      var rest := entries[1..];
      var more := m[entries[0].key.value := entries[0].value.value];
      CollectIsMapOf(rest, more);
      assert forall i :: 0 <= i < |rest| ==> rest[i] == entries[i + 1];
      assert forall i :: 1 <= i < |entries| ==> entries[i] == rest[i - 1];
      if DistinctKeys(entries) && forall i :: 0 <= i < |entries| ==> entries[i].key.value !in m {
        assert DistinctKeys(rest) && forall i :: 0 <= i < |rest| ==> rest[i].key.value !in more;
      }
    }
  }

  /** Whatever the white space and the escapes, a rendered configuration reads back as its map, and a duplicate is refused. */
  lemma {:induction false} DocumentReadsBack(d: Document)
    requires ValidDocument(d)
    ensures DistinctKeys(d.entries) ==> Parse(Render(d)).Ok? && IsMapOf(Parse(Render(d)).value, d.entries)
    ensures !DistinctKeys(d.entries) ==> Parse(Render(d)) == Err(DuplicateRef)
  {
    var inner := (if d.entries == [] then d.inside + [CLOSE_BRACE] else EntriesText(d.entries)) + d.trail;
    SpacesAreSkipped(d.lead, [OPEN_BRACE] + inner);
    assert ([OPEN_BRACE] + inner)[1..] == inner;
    CollectIsMapOf(d.entries, map[]);
    if d.entries == [] {
      EmptyReadsBack(d.inside, d.trail);
    } else {
      FirstEntryReadsBack(d.entries, d.trail);
      EntriesReadBack(d.entries, d.trail, map[]);
    }
  }

  lemma {:induction false} EmptyReadsBack(inside: Text, trail: Text)
    requires IsSpaces(inside) && IsSpaces(trail)
    ensures var t := Skip((inside + [CLOSE_BRACE]) + trail);
      StartsWith(t, CLOSE_BRACE) && Skip(t[1..]) == []
  {
    Assoc(inside, [CLOSE_BRACE], trail);
    SpacesAreSkipped(inside, [CLOSE_BRACE] + trail);
    SpacesAreSkipped(trail, []);
    assert ([CLOSE_BRACE] + trail)[1..] == trail && trail + [] == trail;
  }

  // ---------------------------------------------------------------- what is read was written

  lemma {:induction false} DecodedIsWritten(body: Text) returns (t: Token)
    requires Decode(body).Some?
    ensures ValidToken(t) && t.value == Decode(body).value && Body(t) == body
    decreases |body|
  {
    if body == [] {
      t := Token([], []);
    } else {
      var n := if body[0] != BACKSLASH then 1 else if body[1] == LETTER_U then 6 else 2;
      var rest := DecodedIsWritten(body[n..]);
      var u := Decode(body).value[0];
      var form := if n == 1 then Raw else if n == 2 then Short(body[1]) else Hex(body[2..6]);
      t := Token([u] + rest.value, [form] + rest.forms);
      assert Tail(t) == rest;
      assert FormText(form, u) == body[..n];
      assert body[..n] + body[n..] == body;
    }
  }

  lemma {:induction false} ParsedStringIsToken(t: Text) returns (token: Token)
    requires ParseString(t).Ok?
    ensures ValidToken(token) && token.value == ParseString(t).value.value && t == TokenText(token) + ParseString(t).value.rest
  {
    var i := CloseAt(t[1..], false).value;
    CloseAtIsInside(t[1..], false);
    token := DecodedIsWritten(t[1..i + 1]);
    assert t == [QUOTE] + t[1..i + 1] + [QUOTE] + t[i + 2..];
  }

  lemma {:induction false} SkippedAreSpaces(t: Text) returns (spaces: Text)
    ensures IsSpaces(spaces) && t == spaces + Skip(t)
  {
    if t != [] && IsSpace(t[0]) {
      var more := SkippedAreSpaces(t[1..]);
      spaces := [t[0]] + more;
    } else {
      spaces := [];
    }
  }

  lemma {:induction false} ParsedEntryIsEntry(before: Text, t: Text) returns (e: Entry)
    requires IsSpaces(before) && ParseEntry(t).Ok?
    ensures ValidEntry(e) && e.before == before && e.key.value == ParseEntry(t).value.key && e.value.value == ParseEntry(t).value.value
    ensures t == EntryText(e) + ParseEntry(t).value.rest
  {
    var key := ParsedStringIsToken(t);
    var afterKey := ParseString(t).value.rest;
    var s1 := SkippedAreSpaces(afterKey);
    var behindColon := Skip(afterKey)[1..];
    var s2 := SkippedAreSpaces(behindColon);
    var atValue := Skip(behindColon);
    var value := ParsedStringIsToken(atValue);
    var afterValue := ParseString(atValue).value.rest;
    var s3 := SkippedAreSpaces(afterValue);
    e := Entry(before, key, s1, s2, value, s3);
    assert Skip(afterKey) == [COLON] + behindColon;
    RegroupEntry(e, Skip(afterValue));
  }

  lemma {:induction false} EntryInFront(text: Text, e: Entry, rest: Text, others: seq<Entry>, trail: Text, m: map<Text, Text>)
    requires text == e.before + (EntryText(e) + rest) && e.key.value !in m
    requires rest == if others == [] then [CLOSE_BRACE] + trail else [COMMA] + (EntriesText(others) + trail)
    ensures text == EntriesText([e] + others) + trail
    ensures Collect([e] + others, m) == Collect(others, m[e.key.value := e.value.value])
  {
    var entries := [e] + others;
    assert entries[1..] == others;
    RegroupEntries(entries, trail);
  }

  /** A parse that ends well takes an entry off the front and ends well on what is left. */
  lemma {:induction false} EntryOffTheFront(t: Text, m: map<Text, Text>)
    requires ParseEntries(t, m).Ok?
    ensures ParseEntry(t).Ok? && ParseEntry(t).value.key !in m
    ensures var entry := ParseEntry(t).value;
      var more := m[entry.key := entry.value];
      if StartsWith(entry.rest, CLOSE_BRACE) then Skip(entry.rest[1..]) == [] && ParseEntries(t, m) == Ok(more)
      else StartsWith(entry.rest, COMMA) && ParseEntries(t, m) == ParseEntries(Skip(entry.rest[1..]), more)
  {
  }

  /** What follows an entry is the end of the object, or a comma and more entries. */
  lemma {:induction false} ParsedRestIsWritten(rest: Text, m: map<Text, Text>) returns (others: seq<Entry>, trail: Text)
    requires StartsWith(rest, CLOSE_BRACE) ==> Skip(rest[1..]) == []
    requires !StartsWith(rest, CLOSE_BRACE) ==> StartsWith(rest, COMMA) && ParseEntries(Skip(rest[1..]), m).Ok?
    ensures IsSpaces(trail) && forall i :: 0 <= i < |others| ==> ValidEntry(others[i])
    ensures rest == if others == [] then [CLOSE_BRACE] + trail else [COMMA] + (EntriesText(others) + trail)
    ensures Collect(others, m) == Some(if StartsWith(rest, CLOSE_BRACE) then m else ParseEntries(Skip(rest[1..]), m).value)
    decreases |rest|, 0
  {
    if StartsWith(rest, CLOSE_BRACE) {
      others := [];
      trail := SkippedAreSpaces(rest[1..]);
      assert rest == [CLOSE_BRACE] + trail;
    } else {
      others, trail := ParsedEntriesAreWritten(rest[1..], m);
      assert rest == [COMMA] + rest[1..];
    }
  }

  lemma {:induction false} ParsedEntriesAreWritten(text: Text, m: map<Text, Text>) returns (entries: seq<Entry>, trail: Text)
    requires ParseEntries(Skip(text), m).Ok?
    ensures entries != [] && IsSpaces(trail) && text == EntriesText(entries) + trail
    ensures forall i :: 0 <= i < |entries| ==> ValidEntry(entries[i])
    ensures Collect(entries, m) == Some(ParseEntries(Skip(text), m).value)
    decreases |text|, 1
  {
    EntryOffTheFront(Skip(text), m);
    var before := SkippedAreSpaces(text);
    var e := ParsedEntryIsEntry(before, Skip(text));
    var rest := ParseEntry(Skip(text)).value.rest;
    var others;
    others, trail := ParsedRestIsWritten(rest, m[e.key.value := e.value.value]);
    EntryInFront(text, e, rest, others, trail, m);
    entries := [e] + others;
  }

  /** The parser accepts exactly the texts some configuration with distinct keys is written as, and returns its map. */
  lemma {:induction false} ParsesExactlyTheWritten(source: Text)
    ensures Parse(source).Ok? <==> exists d :: ValidDocument(d) && DistinctKeys(d.entries) && Render(d) == source
    ensures Parse(source).Ok? ==> exists d ::
      ValidDocument(d) && DistinctKeys(d.entries) && Render(d) == source && IsMapOf(Parse(source).value, d.entries)
  {
    if Parse(source).Ok? {
      var d := ParsedIsWritten(source);
      DocumentReadsBack(d);
    }
    forall d | ValidDocument(d) && DistinctKeys(d.entries) && Render(d) == source ensures Parse(source).Ok? {
      DocumentReadsBack(d);
    }
  }

  lemma {:induction false} ParsedIsWritten(source: Text) returns (d: Document)
    requires Parse(source).Ok?
    ensures ValidDocument(d) && DistinctKeys(d.entries) && Render(d) == source
  {
    var lead := SkippedAreSpaces(source);
    var inner := Skip(source)[1..];
    var inside := Skip(inner);
    assert Skip(source) == [OPEN_BRACE] + inner;
    if StartsWith(inside, CLOSE_BRACE) {
      var blank := SkippedAreSpaces(inner);
      var trail := SkippedAreSpaces(inside[1..]);
      d := Document(lead, [], blank, trail);
      assert inside == [CLOSE_BRACE] + trail;
      Assoc(blank, [CLOSE_BRACE], trail);
    } else {
      var entries, trail := ParsedEntriesAreWritten(inner, map[]);
      CollectIsMapOf(entries, map[]);
      d := Document(lead, entries, [], trail);
    }
  }
}
