/** The canonical JSON printer: sorted object keys, no white space, nesting limited to depth 32. */
module CanonicalJson {
  import opened Results
  import Decimal
  import Utf8
  import opened Sequences
  import opened Sorting

  const MAX_DEPTH: nat := 32

  datatype Entry<+T> = Entry(key: string, value: T)

  /** Floats appear as the text they print as; object members in the order their map yields them. */
  datatype Json =
    | Null
    | Bool(b: bool)
    | Int(n: int)
    | Float(token: string)
    | Str(s: string)
    | Array(items: seq<Json>)
    | Object(members: seq<Entry<Json>>)

  datatype CanonicalError = DepthExceeded

  predicate IsNumberChar(c: char) {
    Decimal.IsDigit(c) || c in "+-.eE"
  }

  /** The text of a finite float: a number that no integer prints as. */
  predicate IsFloatToken(t: string) {
    && t != [] && (Decimal.IsDigit(t[0]) || t[0] == '-')
    && (forall i | 0 <= i < |t| :: IsNumberChar(t[i]))
    && ('.' in t || 'e' in t)
  }

  /** Floats with a point and with an exponent, of either sign, and never the text of an integer. */
  lemma FloatTokenIs(n: int)
    ensures IsFloatToken("0.5") && IsFloatToken("-0.0") && IsFloatToken("1e300") && IsFloatToken("-2.5e-7")
    ensures !IsFloatToken("") && !IsFloatToken(".5") && !IsFloatToken("1.5~") && !IsFloatToken("~1.5")
    ensures !IsFloatToken(Decimal.OfInt(n))
  {
    assert "1.5~"[3] == '~';
  }

  predicate DistinctKeys<T>(members: seq<Entry<T>>) {
    forall i, j | 0 <= i < j < |members| :: members[i].key != members[j].key
  }

  /** What a parsed or constructed value always satisfies: object keys are unique, floats are finite. */
  predicate WellFormed(v: Json) {
    match v
    case Float(token) => IsFloatToken(token)
    case Array(items) => forall i | 0 <= i < |items| :: WellFormed(items[i])
    case Object(members) =>
      DistinctKeys(members) && forall i | 0 <= i < |members| :: WellFormed(members[i].value)
    case _ => true
  }

  // ---------- strings ----------

  function HexDigit(d: nat): char
    requires d < 16
  {
    if d < 10 then (48 + d) as char else (87 + d) as char
  }

  function EscapeChar(c: char): (s: string)
    ensures s != [] && forall i | 0 <= i < |s| :: s[i] >= ' '
  {
    if c == '"' then "\\\""
    else if c == '\\' then "\\\\"
    else if c as int == 8 then "\\b"
    else if c as int == 9 then "\\t"
    else if c as int == 10 then "\\n"
    else if c as int == 12 then "\\f"
    else if c as int == 13 then "\\r"
    else if c < ' ' then "\\u00" + [HexDigit(c as int / 16), HexDigit(c as int % 16)]
    else [c]
  }

  function Escape(s: string): string {
    if s == [] then [] else EscapeChar(s[0]) + Escape(s[1..])
  }

  function Quote(s: string): string {
    "\"" + Escape(s) + "\""
  }

  // ---------- the text of a value ----------

  predicate ByKey<T>(a: Entry<T>, b: Entry<T>) {
    Utf8.StringLeq(a.key, b.key)
  }

  function Text(v: Json): string
    decreases v, 0
  {
    match v
    case Null => "null"
    case Bool(b) => if b then "true" else "false"
    case Int(n) => Decimal.OfInt(n)
    case Float(token) => token
    case Str(s) => Quote(s)
    case Array(items) => "[" + Join(Texts(items)) + "]"
    case Object(members) => "{" + Join(SortedTexts(members)) + "}"
  }

  function Texts(items: seq<Json>): (r: seq<string>)
    ensures |r| == |items|
    decreases items, 1
  {
    if items == [] then [] else [Text(items[0])] + Texts(items[1..])
  }

  /** Each member's key beside the text of its value, in the order given. */
  function EntryTexts(members: seq<Entry<Json>>): (r: seq<Entry<string>>)
    ensures |r| == |members|
    decreases members, 1
  {
    if members == [] then []
    else [Entry(members[0].key, Text(members[0].value))] + EntryTexts(members[1..])
  }

  function MemberText(e: Entry<string>): string {
    Quote(e.key) + ":" + e.value
  }

  function MemberTexts(entries: seq<Entry<string>>): (r: seq<string>)
    ensures |r| == |entries|
  {
    if entries == [] then [] else [MemberText(entries[0])] + MemberTexts(entries[1..])
  }

  /** The pieces with a comma between each two. */
  function Join(pieces: seq<string>): string {
    if pieces == [] then []
    else if |pieces| == 1 then pieces[0]
    else pieces[0] + "," + Join(pieces[1..])
  }

  // ---------- depth ----------

  /** `path` leads from the root of `v` to one of its nodes, by child positions. */
  predicate IsNode(v: Json, path: seq<nat>)
    decreases path
  {
    path == [] ||
    match v
    case Array(items) => path[0] < |items| && IsNode(items[path[0]], path[1..])
    case Object(members) => path[0] < |members| && IsNode(members[path[0]].value, path[1..])
    case _ => false
  }

  /** Every node of `v` sits at most `depth` levels below the root. */
  ghost predicate NodesWithin(v: Json, depth: int) {
    forall path {:trigger IsNode(v, path)} | IsNode(v, path) :: |path| <= depth
  }

  lemma NodesWithinLeaf(v: Json, depth: int)
    requires !v.Array? && !v.Object?
    ensures NodesWithin(v, depth) <==> depth >= 0
  {
    assert IsNode(v, []);
  }

  lemma NodesWithinArray(items: seq<Json>, depth: int)
    ensures NodesWithin(Array(items), depth)
            <==> depth >= 0 && forall i | 0 <= i < |items| :: NodesWithin(items[i], depth - 1)
  {
    var v := Array(items);
    assert IsNode(v, []);
    if NodesWithin(v, depth) {
      forall i: nat, path | i < |items| && IsNode(items[i], path) ensures |path| <= depth - 1 {
        assert ([i] + path)[1..] == path;
        assert IsNode(v, [i] + path);
      }
    } else if depth >= 0 {
      var path :| IsNode(v, path) && |path| > depth;
      assert IsNode(items[path[0]], path[1..]) && |path[1..]| > depth - 1;
    }
  }

  lemma NodesWithinObject(members: seq<Entry<Json>>, depth: int)
    ensures NodesWithin(Object(members), depth)
            <==> depth >= 0 && forall i | 0 <= i < |members| :: NodesWithin(members[i].value, depth - 1)
  {
    var v := Object(members);
    assert IsNode(v, []);
    if NodesWithin(v, depth) {
      forall i: nat, path | i < |members| && IsNode(members[i].value, path) ensures |path| <= depth - 1 {
        assert ([i] + path)[1..] == path;
        assert IsNode(v, [i] + path);
      }
    } else if depth >= 0 {
      var path :| IsNode(v, path) && |path| > depth;
      assert IsNode(members[path[0]].value, path[1..]) && |path[1..]| > depth - 1;
    }
  }

  // ---------- the printer ----------

  lemma {:induction false} TextsAt(items: seq<Json>, i: nat)
    requires i < |items|
    ensures Texts(items)[i] == Text(items[i])
  {
    if i > 0 {
      TextsAt(items[1..], i - 1);
    }
  }

  lemma {:induction false} EntryTextsAt(members: seq<Entry<Json>>, i: nat)
    requires i < |members|
    ensures EntryTexts(members)[i] == Entry(members[i].key, Text(members[i].value))
  {
    if i > 0 {
      EntryTextsAt(members[1..], i - 1);
    }
  }

  lemma {:induction false} MemberTextsAt(entries: seq<Entry<string>>, i: nat)
    requires i < |entries|
    ensures MemberTexts(entries)[i] == MemberText(entries[i])
  {
    if i > 0 {
      MemberTextsAt(entries[1..], i - 1);
    }
  }

  lemma {:induction false} JoinOneMore(pieces: seq<string>, piece: string)
    ensures Join(pieces + [piece]) == if pieces == [] then piece else Join(pieces) + "," + piece
  {
    if |pieces| > 1 {
      JoinOneMore(pieces[1..], piece);
      assert (pieces + [piece])[1..] == pieces[1..] + [piece];
    } else if |pieces| == 1 {
      assert (pieces + [piece])[1..] == [piece];
    }
  }

  /** Appending piece `idx`, after a comma unless it is the first, extends what has been joined by one piece. */
  lemma PushPiece(opening: string, pieces: seq<string>, idx: nat, out: string)
    requires idx < |pieces| && out == opening + Join(pieces[..idx])
    ensures (if idx > 0 then out + "," else out) + pieces[idx] == opening + Join(pieces[..idx + 1])
  {
    JoinOneMore(pieces[..idx], pieces[idx]);
    TakeOneMore(pieces, idx);
    assert opening + Join(pieces[..idx]) + "," + pieces[idx] == opening + (Join(pieces[..idx]) + "," + pieces[idx]);
  }

  function Keys<T>(members: seq<Entry<T>>): (r: seq<string>)
    ensures |r| == |members|
  {
    if members == [] then [] else [members[0].key] + Keys(members[1..])
  }

  lemma {:induction false} KeysAt<T>(members: seq<Entry<T>>, i: nat)
    requires i < |members|
    ensures Keys(members)[i] == members[i].key
  {
    if i > 0 {
      KeysAt(members[1..], i - 1);
    }
  }

  lemma {:induction false} InsertKeys<T>(e: Entry<T>, es: seq<Entry<T>>)
    ensures Keys(Insert(ByKey<T>, e, es)) == Insert(Utf8.StringLeq, e.key, Keys(es))
  {
    if es != [] && !ByKey(e, es[0]) {
      InsertKeys(e, es[1..]);
    }
  }

  /** Sorting the keys alone gives the keys of the sorted members. */
  lemma {:induction false} SortKeys<T>(es: seq<Entry<T>>)
    ensures Keys(Sort(ByKey<T>, es)) == Sort(Utf8.StringLeq, Keys(es))
  {
    if es != [] {
      SortKeys(es[1..]);
      InsertKeys(es[0], Sort(ByKey<T>, es[1..]));
    }
  }

  /** The value stored under `key`. */
  function Get(members: seq<Entry<Json>>, key: string): (v: Json)
    requires key in Keys(members)
    ensures Entry(key, v) in members
  {
    if members[0].key == key then members[0].value else Get(members[1..], key)
  }

  lemma {:induction false} GetAt(members: seq<Entry<Json>>, i: nat)
    requires DistinctKeys(members) && i < |members|
    ensures members[i].key in Keys(members) && Get(members, members[i].key) == members[i].value
  {
    KeysAt(members, i);
  }

  lemma EntryTextsKeys(members: seq<Entry<Json>>)
    ensures Keys(EntryTexts(members)) == Keys(members)
  {
    var texts := EntryTexts(members);
    forall k | 0 <= k < |members| ensures Keys(texts)[k] == Keys(members)[k] {
      KeysAt(texts, k);
      KeysAt(members, k);
      EntryTextsAt(members, k);
    }
  }

  lemma EntryTextOf(members: seq<Entry<Json>>, e: Entry<string>)
    requires DistinctKeys(members) && e in EntryTexts(members)
    ensures e.key in Keys(members) && e.value == Text(Get(members, e.key))
  {
    var j :| 0 <= j < |members| && EntryTexts(members)[j] == e;
    EntryTextsAt(members, j);
    GetAt(members, j);
  }

  /** The sorted list of member texts is what looking each sorted key up and printing its value gives. */
  lemma {:induction false} SortedMemberText(members: seq<Entry<Json>>, i: nat)
    requires DistinctKeys(members) && i < |members|
    ensures var key := Sort(Utf8.StringLeq, Keys(members))[i];
            key in Keys(members) && SortedTexts(members)[i] == Quote(key) + ":" + Text(Get(members, key))
  {
    var sorted := Sort(ByKey<string>, EntryTexts(members));
    SortMember(ByKey<string>, EntryTexts(members), sorted[i]);
    EntryTextOf(members, sorted[i]);
    EntryTextsKeys(members);
    SortKeys(EntryTexts(members));
    KeysAt(sorted, i);
    MemberTextsAt(sorted, i);
  }

  function SortedTexts(members: seq<Entry<Json>>): (r: seq<string>)
    ensures |r| == |members|
    decreases members, 2
  {
    MemberTexts(Sort(ByKey<string>, EntryTexts(members)))
  }

  method WriteValue(v: Json, depth: nat) returns (r: Result<string, CanonicalError>)
    requires WellFormed(v)
    ensures r == if NodesWithin(v, MAX_DEPTH - depth) then Ok(Text(v)) else Err(DepthExceeded)
    decreases v, 1
  {
    if depth > MAX_DEPTH {
      assert IsNode(v, []);
      return Err(DepthExceeded);
    }
    match v {
      case Array(items) => r := WriteItems(items, depth);
      case Object(members) => r := WriteMembers(members, depth);
      case _ =>
        NodesWithinLeaf(v, MAX_DEPTH - depth);
        r := Ok(Text(v));
    }
  }

  method WriteItems(items: seq<Json>, depth: nat) returns (r: Result<string, CanonicalError>)
    requires WellFormed(Array(items)) && depth <= MAX_DEPTH
    ensures r == if NodesWithin(Array(items), MAX_DEPTH - depth) then Ok(Text(Array(items))) else Err(DepthExceeded)
    decreases Array(items), 0
  {
    ghost var below := MAX_DEPTH - (depth + 1);
    var out := "[";
    for idx := 0 to |items|
      invariant ItemsFit(items[..idx], below)
      invariant out == "[" + Join(Texts(items)[..idx])
    {
      ghost var before := out;
      if idx > 0 {
        out := out + ",";
      }
      var text := WriteValue(items[idx], depth + 1);
      if text.Err? {
        NodesWithinArray(items, below + 1);
        return Err(DepthExceeded);
      }
      TakeOneMore(items, idx);
      out := out + text.value;
      TextsAt(items, idx);
      PushPiece("[", Texts(items), idx, before);
    }
    NodesWithinArray(items, below + 1);
    TakeAll(items);
    TakeAll(Texts(items));
    r := Ok(out + "]");
  }

  ghost predicate ItemsFit(items: seq<Json>, depth: int) {
    forall i | 0 <= i < |items| :: NodesWithin(items[i], depth)
  }

  method WriteMembers(members: seq<Entry<Json>>, depth: nat) returns (r: Result<string, CanonicalError>)
    requires WellFormed(Object(members)) && depth <= MAX_DEPTH
    ensures r == if NodesWithin(Object(members), MAX_DEPTH - depth) then Ok(Text(Object(members))) else Err(DepthExceeded)
    decreases Object(members), 0
  {
    ghost var below := MAX_DEPTH - (depth + 1);
    var keys := Sort(Utf8.StringLeq, Keys(members));
    ghost var pieces := SortedTexts(members);
    var out := "{";
    for idx := 0 to |keys|
      invariant AllFit(members, keys[..idx], below)
      invariant out == "{" + Join(pieces[..idx])
    {
      ghost var before := out;
      if idx > 0 {
        out := out + ",";
      }
      SortedMemberText(members, idx);
      ghost var separated := out;
      out := out + Quote(keys[idx]);
      out := out + ":";
      var value := Get(members, keys[idx]);
      var text := WriteValue(value, depth + 1);
      if text.Err? {
        TooDeepMember(members, keys[idx], below);
        return Err(DepthExceeded);
      }
      AllFitOneMore(members, keys[..idx], keys[idx], below);
      TakeOneMore(keys, idx);
      out := out + text.value;
      Regroup(separated, Quote(keys[idx]), ":");
      Regroup(separated, Quote(keys[idx]) + ":", text.value);
      PushPiece("{", pieces, idx, before);
    }
    TakeAll(keys);
    AllKeysVisited(members, below);
    TakeAll(pieces);
    r := Ok(out + "}");
  }

  ghost predicate AllFit(members: seq<Entry<Json>>, keys: seq<string>, depth: int) {
    forall key | key in keys :: key in Keys(members) && NodesWithin(Get(members, key), depth)
  }

  lemma AllFitOneMore(members: seq<Entry<Json>>, keys: seq<string>, key: string, depth: int)
    requires AllFit(members, keys, depth)
    requires key in Keys(members) && NodesWithin(Get(members, key), depth)
    ensures AllFit(members, keys + [key], depth)
  {
  }

  lemma TooDeepMember(members: seq<Entry<Json>>, key: string, depth: int)
    requires key in Keys(members) && !NodesWithin(Get(members, key), depth)
    ensures !NodesWithin(Object(members), depth + 1)
  {
    NodesWithinObject(members, depth + 1);
    assert Entry(key, Get(members, key)) in members;
  }

  lemma AllKeysVisited(members: seq<Entry<Json>>, depth: int)
    requires DistinctKeys(members) && depth >= -1
    requires AllFit(members, Sort(Utf8.StringLeq, Keys(members)), depth)
    ensures NodesWithin(Object(members), depth + 1)
  {
    NodesWithinObject(members, depth + 1);
    forall i | 0 <= i < |members| ensures NodesWithin(members[i].value, depth) {
      GetAt(members, i);
      SortMember(Utf8.StringLeq, Keys(members), members[i].key);
    }
  }

  method CanonicalJson(value: Json) returns (r: Result<string, CanonicalError>)
    requires WellFormed(value)
    ensures r == Canonical(value)
  {
    r := WriteValue(value, 0);
  }

  /** The outcome of `canonical_json`. */
  ghost function Canonical(value: Json): Result<string, CanonicalError> {
    if NodesWithin(value, MAX_DEPTH) then Ok(Text(value)) else Err(DepthExceeded)
  }

  // ---------- what the text looks like ----------

  /** Section 7 of RFC 8259: short escapes where there are some, four lower-case hexadecimal digits for other controls. */
  lemma EscapeCharIs(c: char)
    ensures EscapeChar(c) == [c] <==> c >= ' ' && c != '"' && c != '\\'
    ensures EscapeChar('"') == "\\\"" && EscapeChar('\\') == "\\\\"
    ensures EscapeChar('\n') == "\\n" && EscapeChar('\r') == "\\r" && EscapeChar('\t') == "\\t"
    ensures EscapeChar(8 as char) == "\\b" && EscapeChar(12 as char) == "\\f"
    ensures c < ' ' && c as int !in {8, 9, 10, 12, 13} ==>
              EscapeChar(c) == "\\u00" + ["0123456789abcdef"[c as int / 16], "0123456789abcdef"[c as int % 16]]
  {
  }

  /** The keys of an object are written in strictly rising order, character by character. */
  lemma SortedKeysRise(members: seq<Entry<Json>>, i: nat, j: nat)
    requires DistinctKeys(members) && i < j < |members|
    ensures var keys := Sort(Utf8.StringLeq, Keys(members));
            Utf8.ComesFirst(keys[i], keys[j]) && keys[i] != keys[j]
  {
    var keys := Sort(Utf8.StringLeq, Keys(members));
    StringLeqOrders();
    SortSorts(Utf8.StringLeq, Keys(members));
    SortPermutes(Utf8.StringLeq, Keys(members));
    forall a, b | 0 <= a < b < |members| ensures Keys(members)[a] != Keys(members)[b] {
      KeysAt(members, a);
      KeysAt(members, b);
    }
    DistinctPreserved(Keys(members), keys);
    assert Utf8.StringLeq(keys[i], keys[j]);
    Utf8.StringLeqIff(keys[i], keys[j]);
  }

  lemma StringLeqOrders()
    ensures TotalPreorder(Utf8.StringLeq)
  {
    forall a: string, b: string ensures Utf8.StringLeq(a, b) || Utf8.StringLeq(b, a) {
      Utf8.LexTotal(Utf8.Encode(a), Utf8.Encode(b));
    }
    forall a: string, b: string, c: string | Utf8.StringLeq(a, b) && Utf8.StringLeq(b, c) ensures Utf8.StringLeq(a, c) {
      Utf8.LexTransitive(Utf8.Encode(a), Utf8.Encode(b), Utf8.Encode(c));
    }
  }

  /** `n` arrays inside each other. */
  function Nested(n: nat): Json {
    if n == 0 then Null else Array([Nested(n - 1)])
  }

  /** `n` objects inside each other. */
  function NestedObjects(n: nat): Json {
    if n == 0 then Null else Object([Entry("k", NestedObjects(n - 1))])
  }

  lemma {:induction false} NestedWithin(n: nat, depth: int)
    ensures NodesWithin(Nested(n), depth) <==> n <= depth
    ensures NodesWithin(NestedObjects(n), depth) <==> n <= depth
    decreases n
  {
    if n == 0 {
      NodesWithinLeaf(Null, depth);
    } else {
      NestedWithin(n - 1, depth - 1);
      NodesWithinArray([Nested(n - 1)], depth);
      var members := [Entry("k", NestedObjects(n - 1))];
      NodesWithinObject(members, depth);
      assert members[0].value == NestedObjects(n - 1);
    }
  }

  /** The depth limit is met with 32 levels of nesting and exceeded with 33. */
  lemma DepthLimitIs(n: nat)
    ensures Canonical(Nested(n)).Ok? <==> n <= 32
    ensures Canonical(NestedObjects(n)).Ok? <==> n <= 32
  {
    NestedWithin(n, 32);
  }
}
