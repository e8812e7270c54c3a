/**
 A parser for the canonical grammar (strings as in section 7 of RFC 8259, objects as in section 4). It undoes the
 printer, which is what makes a hash or a signature over canonical text stand for the value itself.
 */
module CanonicalParser {
  import opened Results
  import opened Sequences
  import opened Sorting
  import opened CanonicalJson
  import Decimal
  import Utf8

  /** A parsed value and the text that follows it. */
  type Parsed<T> = Option<(T, string)>

  // ---------- strings ----------

  function HexValue(c: char): Option<nat> {
    if '0' <= c <= '9' then Some(c as int - 48)
    else if 'a' <= c <= 'f' then Some(c as int - 87)
    else None
  }

  function ParseEscape(t: string): (r: Parsed<char>)
    ensures r.Some? ==> |r.value.1| < |t|
  {
    if t == [] then None
    else if t[0] == '"' then Some(('"', t[1..]))
    else if t[0] == '\\' then Some(('\\', t[1..]))
    else if t[0] == 'b' then Some((8 as char, t[1..]))
    else if t[0] == 't' then Some((9 as char, t[1..]))
    else if t[0] == 'n' then Some((10 as char, t[1..]))
    else if t[0] == 'f' then Some((12 as char, t[1..]))
    else if t[0] == 'r' then Some((13 as char, t[1..]))
    else if |t| >= 5 && t[..3] == "u00" && HexValue(t[3]).Some? && HexValue(t[4]).Some? then
      Some(((HexValue(t[3]).value * 16 + HexValue(t[4]).value) as char, t[5..]))
    else None
  }

  /** The characters up to the closing quotation mark. */
  function ParseString(t: string): (r: Parsed<string>)
    ensures r.Some? ==> |r.value.1| < |t|
  {
    if t == [] then None
    else if t[0] == '"' then Some(([], t[1..]))
    else if t[0] == '\\' then
      match ParseEscape(t[1..])
      case None => None
      case Some((c, rest)) => Prepend(c, ParseString(rest))
    else if t[0] < ' ' then None
    else Prepend(t[0], ParseString(t[1..]))
  }

  function Prepend(c: char, tail: Parsed<string>): Parsed<string> {
    match tail
    case None => None
    case Some((s, rest)) => Some(([c] + s, rest))
  }

  // ---------- numbers ----------

  function NumberLength(t: string): (n: nat)
    ensures n <= |t|
  {
    if t == [] || !IsNumberChar(t[0]) then 0 else 1 + NumberLength(t[1..])
  }

  function ParseNumber(token: string): Option<Json> {
    match Decimal.ParseInt(token)
    case Some(n) => Some(Int(n))
    case None => if IsFloatToken(token) then Some(Float(token)) else None
  }

  // ---------- values ----------

  function ParseValue(t: string): (r: Parsed<Json>)
    ensures r.Some? ==> |r.value.1| < |t|
    decreases |t|, 1
  {
    if t == [] then None
    else if t[0] == '"' then
      match ParseString(t[1..])
      case None => None
      case Some((s, rest)) => Some((Str(s), rest))
    else if t[0] == '[' then
      if |t| > 1 && t[1] == ']' then Some((Array([]), t[2..]))
      else
        match ParseItems(t[1..])
        case None => None
        case Some((items, rest)) => Some((Array(items), rest))
    else if t[0] == '{' then
      if |t| > 1 && t[1] == '}' then Some((Object([]), t[2..]))
      else
        match ParseMembers(t[1..])
        case None => None
        case Some((members, rest)) => Some((Object(members), rest))
    else if "null" <= t then Some((Null, t[4..]))
    else if "true" <= t then Some((Bool(true), t[4..]))
    else if "false" <= t then Some((Bool(false), t[5..]))
    else if NumberLength(t) == 0 then None
    else
      match ParseNumber(t[..NumberLength(t)])
      case None => None
      case Some(v) => Some((v, t[NumberLength(t)..]))
  }

  /** One or more values with commas between them, up to the closing bracket. */
  function ParseItems(t: string): (r: Parsed<seq<Json>>)
    ensures r.Some? ==> |r.value.1| < |t|
    decreases |t|, 2
  {
    match ParseValue(t)
    case None => None
    case Some((v, after)) =>
      if after == [] then None
      else if after[0] == ']' then Some(([v], after[1..]))
      else if after[0] == ',' then
        match ParseItems(after[1..])
        case None => None
        case Some((items, rest)) => Some(([v] + items, rest))
      else None
  }

  /** One or more `"key":value` members with commas between them, up to the closing brace. */
  function ParseMembers(t: string): (r: Parsed<seq<Entry<Json>>>)
    ensures r.Some? ==> |r.value.1| < |t|
    decreases |t|, 2
  {
    match ParseMember(t)
    case None => None
    case Some((e, after)) =>
      if after == [] then None
      else if after[0] == '}' then Some(([e], after[1..]))
      else if after[0] == ',' then
        match ParseMembers(after[1..])
        case None => None
        case Some((members, rest)) => Some(([e] + members, rest))
      else None
  }

  function ParseMember(t: string): (r: Parsed<Entry<Json>>)
    ensures r.Some? ==> |r.value.1| < |t|
    decreases |t|, 1
  {
    if t == [] || t[0] != '"' then None
    else
      match ParseString(t[1..])
      case None => None
      case Some((key, after)) =>
        if after == [] || after[0] != ':' then None
        else
          match ParseValue(after[1..])
          case None => None
          case Some((v, rest)) => Some((Entry(key, v), rest))
  }

  // ---------- the value the parser returns ----------

  /** `v` with the members of every object in key order. */
  function Normalize(v: Json): Json
    decreases v, 0
  {
    match v
    case Array(items) => Array(NormalizeItems(items))
    case Object(members) => Object(Sort(ByKey<Json>, NormalizeMembers(members)))
    case _ => v
  }

  function NormalizeItems(items: seq<Json>): (r: seq<Json>)
    ensures |r| == |items|
    decreases items, 1
  {
    if items == [] then [] else [Normalize(items[0])] + NormalizeItems(items[1..])
  }

  function NormalizeMembers(members: seq<Entry<Json>>): (r: seq<Entry<Json>>)
    ensures |r| == |members|
    decreases members, 1
  {
    if members == [] then []
    else [Entry(members[0].key, Normalize(members[0].value))] + NormalizeMembers(members[1..])
  }

  /** Text after a value that could not be read as more digits of a number. */
  predicate EndsNumber(rest: string) {
    rest == [] || !IsNumberChar(rest[0])
  }

  /** Parsing undoes printing of `v`, whatever follows it. */
  ghost predicate RoundTrips(v: Json) {
    forall rest {:trigger ParseValue(Text(v) + rest)} | EndsNumber(rest) :: ParseValue(Text(v) + rest) == Some((Normalize(v), rest))
  }

  // ---------- proofs for strings and numbers ----------

  lemma ParseEscapeOf(c: char, rest: string)
    requires |EscapeChar(c)| > 1
    ensures EscapeChar(c)[0] == '\\' && ParseEscape(EscapeChar(c)[1..] + rest) == Some((c, rest))
  {
    var t := EscapeChar(c)[1..] + rest;
    if |EscapeChar(c)| == 6 {
      assert t == "u00" + [HexDigit(c as int / 16), HexDigit(c as int % 16)] + rest;
      assert t[..3] == "u00" && t[5..] == rest;
    } else {
      assert t[1..] == rest;
    }
  }

  lemma ParseStringStep(c: char, tail: string, s: string, rest: string)
    requires ParseString(tail) == Some((s, rest))
    ensures ParseString(EscapeChar(c) + tail) == Some(([c] + s, rest))
  {
    var t := EscapeChar(c) + tail;
    if |EscapeChar(c)| > 1 {
      ParseEscapeOf(c, tail);
      assert t[0] == '\\' && t[1..] == EscapeChar(c)[1..] + tail;
    } else {
      assert t[0] == c && t[1..] == tail;
    }
  }

  lemma {:induction false} ParseStringOf(s: string, rest: string)
    ensures ParseString(Escape(s) + "\"" + rest) == Some((s, rest))
  {
    var t := Escape(s) + "\"" + rest;
    if s == [] {
      assert t == "\"" + rest;
      assert t[1..] == rest;
    } else {
      ParseStringOf(s[1..], rest);
      var tail := Escape(s[1..]) + "\"" + rest;
      ParseStringStep(s[0], tail, s[1..], rest);
      Regroup(EscapeChar(s[0]), Escape(s[1..]), "\"");
      Regroup(EscapeChar(s[0]), Escape(s[1..]) + "\"", rest);
      assert s == [s[0]] + s[1..];
    }
  }

  lemma {:induction false} NumberLengthOf(token: string, rest: string)
    requires forall i | 0 <= i < |token| :: IsNumberChar(token[i])
    requires EndsNumber(rest)
    ensures NumberLength(token + rest) == |token|
  {
    if token == [] {
      assert token + rest == rest;
    } else {
      NumberLengthOf(token[1..], rest);
      assert (token + rest)[1..] == token[1..] + rest;
    }
  }

  lemma ParseNumberOf(v: Json)
    requires v.Int? || (v.Float? && IsFloatToken(v.token))
    ensures ParseNumber(Text(v)) == Some(v)
  {
    match v
    case Int(n) => Decimal.ParseIntOfInt(n);
    case Float(token) =>
      assert exists i | 0 <= i < |token| :: token[i] == '.' || token[i] == 'e';
      var i :| 0 <= i < |token| && (token[i] == '.' || token[i] == 'e');
      if token[0] == '-' {
        assert token[1..][i - 1] == token[i];
      }
  }

  lemma NumberParses(token: string, v: Json, rest: string)
    requires token != [] && IsNumberChar(token[0]) && token[0] != 'e' && token[0] != 'E'
    requires NumberLength(token + rest) == |token| && ParseNumber(token) == Some(v)
    ensures ParseValue(token + rest) == Some((v, rest))
  {
    var t := token + rest;
    assert t[0] == token[0] && t[..|token|] == token && t[|token|..] == rest;
  }

  lemma NumberRoundTrips(v: Json)
    requires v.Int? || (v.Float? && IsFloatToken(v.token))
    ensures RoundTrips(v)
  {
    ParseNumberOf(v);
    forall rest | EndsNumber(rest) ensures ParseValue(Text(v) + rest) == Some((v, rest)) {
      NumberLengthOf(Text(v), rest);
      NumberParses(Text(v), v, rest);
    }
  }

  lemma QuotedParses(t: string, inner: string, s: string, rest: string)
    requires t == "\"" + inner && ParseString(inner) == Some((s, rest))
    ensures ParseValue(t) == Some((Str(s), rest))
  {
    assert t[1..] == inner;
  }

  lemma StrRoundTrips(s: string)
    ensures RoundTrips(Str(s))
  {
    forall rest | EndsNumber(rest) ensures ParseValue(Text(Str(s)) + rest) == Some((Str(s), rest)) {
      ParseStringOf(s, rest);
      Regroup("\"", Escape(s), "\"");
      Regroup("\"", Escape(s) + "\"", rest);
      QuotedParses(Quote(s) + rest, Escape(s) + "\"" + rest, s, rest);
    }
  }

  lemma ConstantRoundTrips(v: Json)
    requires v.Null? || v.Bool?
    ensures RoundTrips(v)
  {
    forall rest | EndsNumber(rest) ensures ParseValue(Text(v) + rest) == Some((v, rest)) {
      var t := Text(v) + rest;
      assert t[|Text(v)|..] == rest && t[..|Text(v)|] == Text(v) && t[0] == Text(v)[0];
    }
  }

  // ---------- proofs for arrays ----------

  lemma JoinStep(pieces: seq<string>)
    requires |pieces| > 1
    ensures Join(pieces) == pieces[0] + "," + Join(pieces[1..])
  {
  }

  lemma Splice(a: string, b: string, c: string, d: string, e: string)
    ensures a + b + c + d + e == a + (b + (c + d + e))
  {
    Regroup(a + b, c, d);
    Regroup(a + b, c + d, e);
    Regroup(a, b, c + d + e);
  }

  lemma LastItem(v: Json, rest: string)
    requires RoundTrips(v)
    ensures ParseItems(Text(v) + ("]" + rest)) == Some(([Normalize(v)], rest))
  {
    var after := "]" + rest;
    assert after[1..] == rest;
  }

  lemma FurtherItem(v: Json, tail: string, items: seq<Json>, rest: string)
    requires RoundTrips(v) && ParseItems(tail) == Some((items, rest))
    ensures ParseItems(Text(v) + ("," + tail)) == Some(([Normalize(v)] + items, rest))
  {
    var after := "," + tail;
    assert after[1..] == tail;
  }

  lemma {:induction false} ItemsRoundTrip(items: seq<Json>, rest: string)
    requires items != [] && forall i | 0 <= i < |items| :: RoundTrips(items[i])
    ensures ParseItems(Join(Texts(items)) + "]" + rest) == Some((NormalizeItems(items), rest))
  {
    var head := Text(items[0]);
    if |items| == 1 {
      LastItem(items[0], rest);
      Regroup(head, "]", rest);
      assert NormalizeItems(items) == [Normalize(items[0])];
    } else {
      ItemsRoundTrip(items[1..], rest);
      var tail := Join(Texts(items[1..])) + "]" + rest;
      FurtherItem(items[0], tail, NormalizeItems(items[1..]), rest);
      JoinStep(Texts(items));
      Splice(head, ",", Join(Texts(items[1..])), "]", rest);
    }
  }

  /** Printed values open with a character that neither closes a bracket nor separates. */
  lemma TextStart(v: Json)
    requires WellFormed(v)
    ensures Text(v) != [] && Text(v)[0] !in "]},:"
  {
    if v.Int? {
      assert Decimal.IsDigit(Text(v)[0]) || Text(v)[0] == '-';
    }
  }

  lemma NonEmptyArray(t: string, inner: string, items: seq<Json>, rest: string)
    requires t == "[" + inner && inner != [] && inner[0] != ']' && ParseItems(inner) == Some((items, rest))
    ensures ParseValue(t) == Some((Array(items), rest))
  {
    assert t[1..] == inner && t[1] == inner[0];
  }

  lemma ArrayRoundTrips(items: seq<Json>)
    requires WellFormed(Array(items)) && forall i | 0 <= i < |items| :: RoundTrips(items[i])
    ensures RoundTrips(Array(items))
  {
    forall rest | EndsNumber(rest)
      ensures ParseValue(Text(Array(items)) + rest) == Some((Normalize(Array(items)), rest))
    {
      ArrayParses(items, rest);
    }
  }

  lemma ArrayParses(items: seq<Json>, rest: string)
    requires WellFormed(Array(items)) && forall i | 0 <= i < |items| :: RoundTrips(items[i])
    ensures ParseValue(Text(Array(items)) + rest) == Some((Normalize(Array(items)), rest))
  {
    var t := Text(Array(items)) + rest;
    if items == [] {
      assert t == "[]" + rest;
      assert t[2..] == rest && t[..2] == "[]" && t[0] == '[';
      assert NormalizeItems(items) == [];
    } else {
      ItemsRoundTrip(items, rest);
      var inner := Join(Texts(items)) + "]" + rest;
      Regroup("[", Join(Texts(items)), "]");
      Regroup("[", Join(Texts(items)) + "]", rest);
      TextStart(items[0]);
      assert inner[0] == Text(items[0])[0];
      NonEmptyArray(t, inner, NormalizeItems(items), rest);
    }
  }

  // ---------- proofs for objects ----------

  lemma MemberRoundTrips(e: Entry<Json>, rest: string)
    requires RoundTrips(e.value) && EndsNumber(rest)
    ensures ParseMember(MemberText(Entry(e.key, Text(e.value))) + rest) == Some((Entry(e.key, Normalize(e.value)), rest))
  {
    var t := MemberText(Entry(e.key, Text(e.value))) + rest;
    var after := ":" + (Text(e.value) + rest);
    var quoted := Quote(e.key);
    ParseStringOf(e.key, after);
    Regroup(quoted + ":", Text(e.value), rest);
    Regroup(quoted, ":", Text(e.value) + rest);
    Regroup("\"", Escape(e.key), "\"");
    Regroup("\"", Escape(e.key) + "\"", after);
    assert t == "\"" + (Escape(e.key) + "\"" + after);
    assert t[1..] == Escape(e.key) + "\"" + after;
    assert after[1..] == Text(e.value) + rest;
  }

  function TextOf(e: Entry<Json>): string {
    MemberText(Entry(e.key, Text(e.value)))
  }

  function Normal(e: Entry<Json>): Entry<Json> {
    Entry(e.key, Normalize(e.value))
  }

  lemma LastMember(e: Entry<Json>, rest: string)
    requires RoundTrips(e.value)
    ensures ParseMembers(TextOf(e) + ("}" + rest)) == Some(([Normal(e)], rest))
  {
    var after := "}" + rest;
    MemberRoundTrips(e, after);
    assert after[1..] == rest;
  }

  lemma FurtherMember(e: Entry<Json>, tail: string, members: seq<Entry<Json>>, rest: string)
    requires RoundTrips(e.value) && ParseMembers(tail) == Some((members, rest))
    ensures ParseMembers(TextOf(e) + ("," + tail)) == Some(([Normal(e)] + members, rest))
  {
    var after := "," + tail;
    MemberRoundTrips(e, after);
    assert after[1..] == tail;
  }

  lemma {:induction false} MembersRoundTrip(members: seq<Entry<Json>>, rest: string)
    requires members != [] && forall i | 0 <= i < |members| :: RoundTrips(members[i].value)
    ensures ParseMembers(JoinedMembers(members) + "}" + rest) == Some((NormalizeMembers(members), rest))
  {
    var head := TextOf(members[0]);
    if |members| == 1 {
      LastMember(members[0], rest);
      Regroup(head, "}", rest);
      assert NormalizeMembers(members) == [Normal(members[0])];
    } else {
      MembersRoundTrip(members[1..], rest);
      var tail := JoinedMembers(members[1..]) + "}" + rest;
      FurtherMember(members[0], tail, NormalizeMembers(members[1..]), rest);
      JoinStep(MemberTexts(EntryTexts(members)));
      Splice(head, ",", JoinedMembers(members[1..]), "}", rest);
    }
  }

  function JoinedMembers(members: seq<Entry<Json>>): string {
    Join(MemberTexts(EntryTexts(members)))
  }

  lemma {:induction false} InsertTexts(e: Entry<Json>, es: seq<Entry<Json>>)
    ensures EntryTexts(Insert(ByKey<Json>, e, es)) == Insert(ByKey<string>, Entry(e.key, Text(e.value)), EntryTexts(es))
  {
    if es != [] && !ByKey(e, es[0]) {
      InsertTexts(e, es[1..]);
    }
  }

  lemma {:induction false} SortTexts(es: seq<Entry<Json>>)
    ensures EntryTexts(Sort(ByKey<Json>, es)) == Sort(ByKey<string>, EntryTexts(es))
  {
    if es != [] {
      SortTexts(es[1..]);
      InsertTexts(es[0], Sort(ByKey<Json>, es[1..]));
    }
  }

  lemma {:induction false} InsertNormalized(e: Entry<Json>, es: seq<Entry<Json>>)
    ensures NormalizeMembers(Insert(ByKey<Json>, e, es))
            == Insert(ByKey<Json>, Entry(e.key, Normalize(e.value)), NormalizeMembers(es))
  {
    if es != [] && !ByKey(e, es[0]) {
      InsertNormalized(e, es[1..]);
    }
  }

  lemma {:induction false} SortNormalized(es: seq<Entry<Json>>)
    ensures NormalizeMembers(Sort(ByKey<Json>, es)) == Sort(ByKey<Json>, NormalizeMembers(es))
  {
    if es != [] {
      SortNormalized(es[1..]);
      InsertNormalized(es[0], Sort(ByKey<Json>, es[1..]));
    }
  }

  lemma NonEmptyObject(t: string, inner: string, members: seq<Entry<Json>>, rest: string)
    requires t == "{" + inner && inner != [] && inner[0] != '}' && ParseMembers(inner) == Some((members, rest))
    ensures ParseValue(t) == Some((Object(members), rest))
  {
    assert t[1..] == inner && t[1] == inner[0];
  }

  lemma {:induction false} SortedRoundTrips(sorted: seq<Entry<Json>>, rest: string)
    requires EndsNumber(rest) && forall i | 0 <= i < |sorted| :: RoundTrips(sorted[i].value)
    ensures ParseValue("{" + JoinedMembers(sorted) + "}" + rest) == Some((Object(NormalizeMembers(sorted)), rest))
  {
    var t := "{" + JoinedMembers(sorted) + "}" + rest;
    if sorted == [] {
      assert t == "{}" + rest;
      assert t[2..] == rest;
    } else {
      MembersRoundTrip(sorted, rest);
      var inner := JoinedMembers(sorted) + "}" + rest;
      Regroup("{", JoinedMembers(sorted), "}");
      Regroup("{", JoinedMembers(sorted) + "}", rest);
      assert inner[0] == TextOf(sorted[0])[0] == '"';
      NonEmptyObject(t, inner, NormalizeMembers(sorted), rest);
    }
  }

  lemma ObjectText(members: seq<Entry<Json>>)
    ensures Text(Object(members)) == "{" + JoinedMembers(Sort(ByKey<Json>, members)) + "}"
    ensures Normalize(Object(members)) == Object(NormalizeMembers(Sort(ByKey<Json>, members)))
  {
    SortTexts(members);
    SortNormalized(members);
  }

  lemma ObjectRoundTrips(members: seq<Entry<Json>>)
    requires forall i | 0 <= i < |members| :: RoundTrips(members[i].value)
    ensures RoundTrips(Object(members))
  {
    var sorted := Sort(ByKey<Json>, members);
    ObjectText(members);
    forall i | 0 <= i < |sorted| ensures RoundTrips(sorted[i].value) {
      SortMember(ByKey<Json>, members, sorted[i]);
    }
    forall rest | EndsNumber(rest)
      ensures ParseValue(Text(Object(members)) + rest) == Some((Normalize(Object(members)), rest))
    {
      SortedRoundTrips(sorted, rest);
    }
  }

  // ---------- the main results ----------

  /** Parsing the canonical text of any value, with anything after it, gives back the value and what followed. */
  lemma {:induction false} ParseUndoesPrint(v: Json)
    requires WellFormed(v)
    ensures RoundTrips(v)
    decreases v
  {
    match v
    case Null => ConstantRoundTrips(v);
    case Bool(_) => ConstantRoundTrips(v);
    case Int(_) => NumberRoundTrips(v);
    case Float(_) => NumberRoundTrips(v);
    case Str(s) => StrRoundTrips(s);
    case Array(items) =>
      forall i | 0 <= i < |items| ensures RoundTrips(items[i]) {
        ParseUndoesPrint(items[i]);
      }
      ArrayRoundTrips(items);
    case Object(members) =>
      forall i | 0 <= i < |members| ensures RoundTrips(members[i].value) {
        ParseUndoesPrint(members[i].value);
      }
      ObjectRoundTrips(members);
  }

  /** Equal up to the order in which objects list their members, at every level. */
  predicate SameUpToOrder(v: Json, w: Json)
    decreases v
  {
    match (v, w)
    case (Array(xs), Array(ys)) => |xs| == |ys| && forall i | 0 <= i < |xs| :: SameUpToOrder(xs[i], ys[i])
    case (Object(ms), Object(ns)) =>
      && (forall i | 0 <= i < |ms| ::
            ms[i].key in Keys(ns) && SameUpToOrder(ms[i].value, Get(ns, ms[i].key)))
      && (forall j | 0 <= j < |ns| :: ns[j].key in Keys(ms))
    case (Array(_), _) => false
    case (Object(_), _) => false
    case _ => v == w
  }

  lemma {:induction false} NormalizeItemsAt(items: seq<Json>, i: nat)
    requires i < |items|
    ensures NormalizeItems(items)[i] == Normalize(items[i])
  {
    if i > 0 {
      NormalizeItemsAt(items[1..], i - 1);
    }
  }

  lemma {:induction false} NormalizeMembersAt(members: seq<Entry<Json>>, i: nat)
    requires i < |members|
    ensures NormalizeMembers(members)[i] == Entry(members[i].key, Normalize(members[i].value))
  {
    if i > 0 {
      NormalizeMembersAt(members[1..], i - 1);
    }
  }

  /** A member of one object has a counterpart in any object that normalizes alike. */
  lemma {:induction false} Counterpart(ms: seq<Entry<Json>>, ns: seq<Entry<Json>>, i: nat) returns (j: nat)
    requires Sort(ByKey<Json>, NormalizeMembers(ms)) == Sort(ByKey<Json>, NormalizeMembers(ns))
    requires i < |ms|
    ensures j < |ns| && ms[i].key == ns[j].key && Normalize(ms[i].value) == Normalize(ns[j].value)
  {
    var e := NormalizeMembers(ms)[i];
    NormalizeMembersAt(ms, i);
    SortMember(ByKey<Json>, NormalizeMembers(ms), e);
    SortMember(ByKey<Json>, NormalizeMembers(ns), e);
    j :| 0 <= j < |ns| && NormalizeMembers(ns)[j] == e;
    NormalizeMembersAt(ns, j);
  }

  lemma {:induction false} SameNormalForm(v: Json, w: Json)
    requires WellFormed(v) && WellFormed(w) && Normalize(v) == Normalize(w)
    ensures SameUpToOrder(v, w)
    decreases v, 1
  {
    match v
    case Array(xs) => SameNormalItems(xs, w.items);
    case Object(ms) => SameNormalMembers(ms, w.members);
    case _ =>
  }

  lemma SameNormalItems(xs: seq<Json>, ys: seq<Json>)
    requires WellFormed(Array(xs)) && WellFormed(Array(ys)) && NormalizeItems(xs) == NormalizeItems(ys)
    ensures SameUpToOrder(Array(xs), Array(ys))
    decreases Array(xs), 0
  {
    assert |NormalizeItems(xs)| == |NormalizeItems(ys)|;
    forall i | 0 <= i < |xs| ensures SameUpToOrder(xs[i], ys[i]) {
      NormalizeItemsAt(xs, i);
      NormalizeItemsAt(ys, i);
      SameNormalForm(xs[i], ys[i]);
    }
  }

  lemma {:induction false} SameNormalMembers(ms: seq<Entry<Json>>, ns: seq<Entry<Json>>)
    requires WellFormed(Object(ms)) && WellFormed(Object(ns))
    requires Sort(ByKey<Json>, NormalizeMembers(ms)) == Sort(ByKey<Json>, NormalizeMembers(ns))
    ensures SameUpToOrder(Object(ms), Object(ns))
    decreases Object(ms), 0
  {
    forall i | 0 <= i < |ms| ensures ms[i].key in Keys(ns) && SameUpToOrder(ms[i].value, Get(ns, ms[i].key)) {
      var j := Counterpart(ms, ns, i);
      GetAt(ns, j);
      SameNormalForm(ms[i].value, ns[j].value);
    }
    forall j | 0 <= j < |ns| ensures ns[j].key in Keys(ms) {
      var i := Counterpart(ns, ms, j);
      KeysAt(ms, i);
    }
  }

  lemma ByKeyOrders<T(!new)>()
    ensures TotalPreorder(ByKey<T>)
  {
    forall x: Entry<T>, y: Entry<T> ensures ByKey(x, y) || ByKey(y, x) {
      Utf8.LexTotal(Utf8.Encode(x.key), Utf8.Encode(y.key));
    }
    forall x: Entry<T>, y: Entry<T>, z: Entry<T> | ByKey(x, y) && ByKey(y, z) ensures ByKey(x, z) {
      Utf8.LexTransitive(Utf8.Encode(x.key), Utf8.Encode(y.key), Utf8.Encode(z.key));
    }
  }

  lemma DistinctKeysDoNotTie<T(!new)>(es: seq<Entry<T>>)
    requires DistinctKeys(es)
    ensures Distinct(es) && NoTies(ByKey<T>, es)
  {
    forall x, y | x in es && y in es && ByKey(x, y) && ByKey(y, x) ensures x == y {
      Utf8.StringAntisymmetric(x.key, y.key);
    }
  }

  /** The order in which an object lists its members does not reach its sorted list. */
  lemma SortForgetsOrder<T(!new)>(es: seq<Entry<T>>, fs: seq<Entry<T>>)
    requires DistinctKeys(es) && DistinctKeys(fs) && forall e :: e in es <==> e in fs
    ensures Sort(ByKey<T>, es) == Sort(ByKey<T>, fs)
  {
    DistinctKeysDoNotTie(es);
    DistinctKeysDoNotTie(fs);
    DistinctPermutes(es, fs);
    SortPermutes(ByKey<T>, es);
    SortPermutes(ByKey<T>, fs);
    ByKeyOrders<T>();
    SortSorts(ByKey<T>, es);
    SortSorts(ByKey<T>, fs);
    forall x, y | x in Sort(ByKey<T>, es) && y in Sort(ByKey<T>, es) && ByKey(x, y) && ByKey(y, x) ensures x == y {
      SortMember(ByKey<T>, es, x);
      SortMember(ByKey<T>, es, y);
    }
    SortedUnique(ByKey<T>, Sort(ByKey<T>, es), Sort(ByKey<T>, fs));
  }

  lemma {:induction false} SameMeansSameText(v: Json, w: Json)
    requires WellFormed(v) && WellFormed(w) && SameUpToOrder(v, w)
    ensures Text(v) == Text(w)
    decreases v, 1
  {
    match v
    case Array(xs) => SameItemsText(xs, w.items);
    case Object(ms) => SameMembersText(ms, w.members);
    case _ =>
  }

  lemma SameItemsText(xs: seq<Json>, ys: seq<Json>)
    requires WellFormed(Array(xs)) && WellFormed(Array(ys)) && SameUpToOrder(Array(xs), Array(ys))
    ensures Text(Array(xs)) == Text(Array(ys))
    decreases Array(xs), 0
  {
    forall i | 0 <= i < |xs| ensures Texts(xs)[i] == Texts(ys)[i] {
      TextsAt(xs, i);
      TextsAt(ys, i);
      SameMeansSameText(xs[i], ys[i]);
    }
    assert Texts(xs) == Texts(ys);
  }

  lemma KeyIndex(members: seq<Entry<Json>>, key: string) returns (j: nat)
    requires DistinctKeys(members) && key in Keys(members)
    ensures j < |members| && members[j].key == key && Get(members, key) == members[j].value
  {
    j :| 0 <= j < |members| && members[j] == Entry(key, Get(members, key));
  }

  lemma SameMembersText(ms: seq<Entry<Json>>, ns: seq<Entry<Json>>)
    requires WellFormed(Object(ms)) && WellFormed(Object(ns)) && SameUpToOrder(Object(ms), Object(ns))
    ensures Text(Object(ms)) == Text(Object(ns))
    decreases Object(ms), 0
  {
    forall i | 0 <= i < |ms| ensures EntryTexts(ms)[i] in EntryTexts(ns) {
      var j := KeyIndex(ns, ms[i].key);
      EntryTextsAt(ms, i);
      EntryTextsAt(ns, j);
      SameMeansSameText(ms[i].value, ns[j].value);
    }
    forall j | 0 <= j < |ns| ensures EntryTexts(ns)[j] in EntryTexts(ms) {
      var i := KeyIndex(ms, ns[j].key);
      GetAt(ns, j);
      EntryTextsAt(ms, i);
      EntryTextsAt(ns, j);
      SameMeansSameText(ms[i].value, ns[j].value);
    }
    EntryTextsDistinct(ms);
    EntryTextsDistinct(ns);
    SortForgetsOrder(EntryTexts(ms), EntryTexts(ns));
  }

  lemma EntryTextsDistinct(members: seq<Entry<Json>>)
    requires DistinctKeys(members)
    ensures DistinctKeys(EntryTexts(members))
  {
    forall i, j | 0 <= i < j < |members| ensures EntryTexts(members)[i].key != EntryTexts(members)[j].key {
      EntryTextsAt(members, i);
      EntryTextsAt(members, j);
    }
  }

  /** Two values have the same canonical text exactly when they are equal up to the order of object members. */
  lemma SameTextIffSame(v: Json, w: Json)
    requires WellFormed(v) && WellFormed(w)
    ensures Text(v) == Text(w) <==> SameUpToOrder(v, w)
  {
    if Text(v) == Text(w) {
      ParseUndoesPrint(v);
      ParseUndoesPrint(w);
      assert ParseValue(Text(v) + "") == Some((Normalize(v), "")) && ParseValue(Text(w) + "") == Some((Normalize(w), ""));
      SameNormalForm(v, w);
    }
    if SameUpToOrder(v, w) {
      SameMeansSameText(v, w);
    }
  }

  /** The order of members does not change how deep a value nests either, so `canonical_json` treats both alike. */
  lemma {:induction false} SameDepth(v: Json, w: Json, depth: int)
    requires WellFormed(v) && WellFormed(w) && SameUpToOrder(v, w)
    ensures NodesWithin(v, depth) <==> NodesWithin(w, depth)
    decreases v
  {
    match v
    case Array(xs) =>
      var ys := w.items;
      NodesWithinArray(xs, depth);
      NodesWithinArray(ys, depth);
      forall i | 0 <= i < |xs| ensures NodesWithin(xs[i], depth - 1) <==> NodesWithin(ys[i], depth - 1) {
        SameDepth(xs[i], ys[i], depth - 1);
      }
    case Object(ms) =>
      var ns := w.members;
      NodesWithinObject(ms, depth);
      NodesWithinObject(ns, depth);
      forall i | 0 <= i < |ms|
        ensures NodesWithin(ms[i].value, depth - 1) <==> NodesWithin(Get(ns, ms[i].key), depth - 1)
      {
        var j := KeyIndex(ns, ms[i].key);
        SameDepth(ms[i].value, ns[j].value, depth - 1);
      }
      forall i | 0 <= i < |ms| ensures Entry(ms[i].key, Get(ns, ms[i].key)) in ns {
      }
      forall j | 0 <= j < |ns| ensures exists i | 0 <= i < |ms| :: Get(ns, ms[i].key) == ns[j].value {
        var i := KeyIndex(ms, ns[j].key);
        GetAt(ns, j);
      }
    case _ =>
      NodesWithinLeaf(v, depth);
      NodesWithinLeaf(w, depth);
  }

  /**
   The canonical form of a value in full: it exists exactly when no node lies below depth 32, and two values that have
   one share it exactly when they are equal up to member order.
   */
  lemma {:induction false} CanonicalIffSame(v: Json, w: Json)
    requires WellFormed(v) && WellFormed(w)
    ensures Canonical(v).Ok? <==> NodesWithin(v, 32)
    ensures Canonical(v).Ok? || Canonical(w).Ok? ==> (Canonical(v) == Canonical(w) <==> SameUpToOrder(v, w))
  {
    SameTextIffSame(v, w);
    if SameUpToOrder(v, w) {
      SameDepth(v, w, MAX_DEPTH);
    }
  }

  // ---------- control characters ----------

  predicate NoControl(s: string) {
    forall i | 0 <= i < |s| :: s[i] >= ' '
  }

  lemma {:induction false} EscapeNoControl(s: string)
    ensures NoControl(Escape(s))
  {
    if s != [] {
      EscapeNoControl(s[1..]);
    }
  }

  lemma {:induction false} JoinNoControl(pieces: seq<string>)
    requires forall i | 0 <= i < |pieces| :: NoControl(pieces[i])
    ensures NoControl(Join(pieces))
  {
    if |pieces| > 1 {
      JoinNoControl(pieces[1..]);
    }
  }

  /** Canonical text holds no character below the space: line breaks in strings are escaped. */
  lemma {:induction false} TextNoControl(v: Json)
    requires WellFormed(v)
    ensures NoControl(Text(v))
    decreases v
  {
    match v
    case Null =>
    case Bool(_) =>
    case Int(_) =>
    case Float(_) =>
    case Str(s) => EscapeNoControl(s);
    case Array(items) =>
      forall i | 0 <= i < |items| ensures NoControl(Texts(items)[i]) {
        TextsAt(items, i);
        TextNoControl(items[i]);
      }
      JoinNoControl(Texts(items));
    case Object(members) =>
      forall i | 0 <= i < |members| ensures NoControl(Text(members[i].value)) {
        TextNoControl(members[i].value);
      }
      SortedTextsNoControl(members);
      JoinNoControl(SortedTexts(members));
  }

  lemma MemberNoControl(key: string, text: string)
    requires NoControl(text)
    ensures NoControl(Quote(key) + ":" + text)
  {
    EscapeNoControl(key);
    assert NoControl(Quote(key) + ":");
  }

  lemma {:induction false} SortedTextsNoControl(members: seq<Entry<Json>>)
    requires DistinctKeys(members) && forall i | 0 <= i < |members| :: NoControl(Text(members[i].value))
    ensures forall i | 0 <= i < |members| :: NoControl(SortedTexts(members)[i])
  {
    forall i | 0 <= i < |members| ensures NoControl(SortedTexts(members)[i]) {
      SortedMemberText(members, i);
      var key := Sort(Utf8.StringLeq, Keys(members))[i];
      var j := KeyIndex(members, key);
      MemberNoControl(key, Text(members[j].value));
    }
  }
}
