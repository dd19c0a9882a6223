// The protobuf wire format as scripts/lib/workspace-agent-handshake.ts:133-159 writes it and
// scripts/lib/system-monitor-smoke.ts:14-53 reads it.
module Wire {
  import opened Prelude
  import opened Bytes

  // Number.MAX_SAFE_INTEGER
  const MAX_SAFE: nat := 0x1F_FFFF_FFFF_FFFF

  // --- Varints ---

  function Varint(v: nat): (b: bytes)
    ensures |b| > 0
  {
    if v < 128 then [v] else [v % 128 + 128] + Varint(v / 128)
  }

  // A varint on the wire: every byte but the last carries the continuation bit.
  predicate IsGroup(g: bytes) {
    |g| > 0 && g[|g| - 1] < 128 && forall i :: 0 <= i < |g| - 1 ==> g[i] >= 128
  }

  // Base 128, least significant group first.
  function GroupValue(g: bytes): nat {
    if g == [] then 0 else g[0] % 128 + 128 * GroupValue(g[1..])
  }

  lemma {:induction false} VarintIsGroup(v: nat)
    ensures IsGroup(Varint(v)) && GroupValue(Varint(v)) == v
  {
    if v < 128 {
      assert GroupValue(Varint(v)) == v + 128 * GroupValue([]);
    } else {
      VarintIsGroup(v / 128);
      assert Varint(v)[1..] == Varint(v / 128);
    }
  }

  // A shorter bound on the value bounds the number of bytes.
  lemma {:induction false} VarintLength(v: nat, k: nat, bound: nat)
    requires k >= 1 && v < bound && bound == Power128(k)
    ensures |Varint(v)| <= k
  {
    if k == 1 {
      assert Power128(1) == 128 * Power128(0);
    } else if v >= 128 {
      VarintLength(v / 128, k - 1, Power128(k - 1));
    }
  }

  function Power128(k: nat): nat {
    if k == 0 then 1 else 128 * Power128(k - 1)
  }

  lemma VarintOf(v: nat)
    ensures Varint(v) == if v < 128 then [v] else [v % 128 + 128] + Varint(v / 128)
  {
  }

  method WriteVarint(value: nat) returns (b: bytes)
    ensures b == Varint(value)
  {
    hide Varint;
    var remaining := value;
    b := [];
    var more := true;
    while more
      invariant more ==> b + Varint(remaining) == Varint(value)
      invariant !more ==> b == Varint(value)
      decreases more, remaining
    {
      VarintOf(remaining);
      var low := remaining % 128;
      ghost var before := remaining;
      remaining := remaining / 128;
      if remaining > 0 {
        assert b + Varint(before) == (b + [low + 128]) + Varint(remaining);
        b := b + [low + 128];
      } else {
        b := b + [low];
        more := false;
      }
    }
  }

  // The reader's loop from `offset` on: the value read and where it ends, or none where it throws.
  function ReadFrom(b: bytes, start: nat, offset: nat, value: nat, factor: nat): Option<(nat, nat)>
    decreases |b| - offset
  {
    if offset >= |b| || offset - start >= 10 then None
    else
      var next := value + b[offset] % 128 * factor;
      if next > MAX_SAFE then None
      else if b[offset] < 128 then Some((next, offset + 1))
      else ReadFrom(b, start, offset + 1, next, factor * 128)
  }

  function ReadVarint(b: bytes, start: nat): Option<(nat, nat)> {
    ReadFrom(b, start, start, 0, 1)
  }

  // Double arithmetic is exact up to MAX_SAFE, and rounding keeps a larger sum above it.
  method ReadVarintLoop(b: bytes, start: nat) returns (result: Option<(nat, nat)>)
    ensures result == ReadVarint(b, start)
  {
    var value: nat, factor: nat, offset := 0, 1, start;
    while offset < |b| && offset - start < 10
      invariant start <= offset && ReadVarint(b, start) == ReadFrom(b, start, offset, value, factor)
    {
      value := value + b[offset] % 128 * factor;
      if value > MAX_SAFE {
        return None;
      }
      if b[offset] < 128 {
        return Some((value, offset + 1));
      }
      factor := factor * 128;
      offset := offset + 1;
    }
    result := None;
  }

  // What the reader makes of any group, wherever it stands.
  lemma {:induction false} ReadsGroupFrom(b: bytes, start: nat, offset: nat, end: nat, value: nat, factor: nat)
    requires start <= offset < end <= |b| && IsGroup(b[offset..end]) && value <= MAX_SAFE && factor >= 1
    ensures var v := value + factor * GroupValue(b[offset..end]);
      ReadFrom(b, start, offset, value, factor)
      == if end - start <= 10 && v <= MAX_SAFE then Some((v, end)) else None
    decreases end - offset
  {
    var g := b[offset..end];
    var tail := b[offset + 1..end];
    assert g[1..] == tail && g[0] == b[offset];
    assert end > offset + 1 ==> g[0] >= 128;
    var low := b[offset] % 128;
    var rest := GroupValue(tail);
    Distribute(value, factor, low, rest);
    var next := value + low * factor;
    if b[offset] < 128 {
      assert end == offset + 1;
    } else {
      assert IsGroup(tail) by {
        assert tail[|tail| - 1] == g[|g| - 1];
        forall i | 0 <= i < |tail| - 1 ensures tail[i] >= 128 {
          assert tail[i] == g[i + 1];
        }
      }
      if offset - start < 10 && next <= MAX_SAFE {
        ReadsGroupFrom(b, start, offset + 1, end, next, factor * 128);
      }
    }
  }

  lemma Distribute(value: nat, factor: nat, low: nat, rest: nat)
    ensures value + factor * (low + 128 * rest) == value + low * factor + factor * 128 * rest
    ensures factor * 128 * rest >= 0
  {
    assert factor * (low + 128 * rest) == factor * low + factor * (128 * rest);
  }

  // The reader takes at most ten bytes and a safe integer, and nothing else: it accepts a group, also
  // one that is not the shortest, exactly then.
  lemma ReadsGroup(b: bytes, start: nat, end: nat)
    requires start < end <= |b| && IsGroup(b[start..end])
    ensures ReadVarint(b, start)
         == if end - start <= 10 && GroupValue(b[start..end]) <= MAX_SAFE then Some((GroupValue(b[start..end]), end))
            else None
  {
    ReadsGroupFrom(b, start, start, end, 0, 1);
  }

  // Where no group starts, the reader throws.
  lemma {:induction false} ReadsNoGroup(b: bytes, start: nat, offset: nat, value: nat, factor: nat)
    requires start <= offset && forall i :: offset <= i < |b| ==> b[i] >= 128
    ensures ReadFrom(b, start, offset, value, factor) == None
    decreases |b| - offset
  {
    if offset < |b| && offset - start < 10 {
      ReadsNoGroup(b, start, offset + 1, value + b[offset] % 128 * factor, factor * 128);
    }
  }

  // Where the first byte without the continuation bit ends, or the end of the bytes.
  function GroupEnd(b: bytes, at: nat): (end: nat)
    requires at <= |b|
    ensures at <= end <= |b| && forall i :: at <= i < end - 1 ==> b[i] >= 128
    ensures end == at || b[end - 1] >= 128 ==> forall i :: at <= i < |b| ==> b[i] >= 128
    decreases |b| - at
  {
    if at == |b| then at
    else if b[at] < 128 then at + 1
    else GroupEnd(b, at + 1)
  }

  // The reader returns exactly the value and the end of a group of at most ten bytes whose value is a
  // safe integer; on all other bytes it throws.
  lemma ReadsExactly(b: bytes, start: nat, v: nat, end: nat)
    requires start <= |b|
    ensures ReadVarint(b, start) == Some((v, end))
       <==> start < end <= |b| && IsGroup(b[start..end]) && end - start <= 10 && v == GroupValue(b[start..end]) <= MAX_SAFE
  {
    hide GroupValue, ReadFrom;
    var e := GroupEnd(b, start);
    if start < end <= |b| && IsGroup(b[start..end]) {
      ReadsGroup(b, start, end);
    } else if e == start || b[e - 1] >= 128 {
      ReadsNoGroup(b, start, start, 0, 1);
    } else {
      ReadsGroup(b, start, e);
    }
  }

  // Whatever the bytes, what is read lies after the start and is a safe integer.
  lemma {:induction false} ReadEnds(b: bytes, start: nat, offset: nat, value: nat, factor: nat)
    ensures var r := ReadFrom(b, start, offset, value, factor);
      r.Some? ==> offset < r.value.1 <= |b| && r.value.0 <= MAX_SAFE
    decreases |b| - offset
  {
    if offset < |b| && offset - start < 10 && b[offset] >= 128 {
      ReadEnds(b, start, offset + 1, value + b[offset] % 128 * factor, factor * 128);
    }
  }

  // Reading undoes writing for safe integers, and throws for all others.
  lemma VarintRoundTrip(before: bytes, v: nat, after: bytes)
    ensures ReadVarint(before + Varint(v) + after, |before|)
         == if v <= MAX_SAFE then Some((v, |before| + |Varint(v)|)) else None
  {
    var b, end := before + Varint(v) + after, |before| + |Varint(v)|;
    assert b[|before|..end] == Varint(v);
    VarintIsGroup(v);
    ReadsGroup(b, |before|, end);
    if v <= MAX_SAFE {
      assert Power128(8) == 0x100_0000_0000_0000 by {
        Power128Eight();
      }
      VarintLength(v, 8, Power128(8));
    }
  }

  lemma Power128Eight()
    ensures Power128(8) == 0x100_0000_0000_0000
  {
    assert Power128(2) == 0x4000;
    assert Power128(4) == 0x1000_0000;
    assert Power128(6) == 0x400_0000_0000;
  }

  // --- Fields ---

  // `Text` holds the bytes of a length-delimited field.
  datatype Field = Uint(number: nat, value: nat) | Text(number: nat, text: bytes)

  function BytesField(number: nat, value: bytes): bytes {
    Varint(number * 8 + 2) + (Varint(|value|) + value)
  }

  function UintField(number: nat, value: nat): bytes {
    Varint(number * 8) + Varint(value)
  }

  function Encode(f: Field): (b: bytes) {
    match f
    case Uint(number, value) => UintField(number, value)
    case Text(number, text) => BytesField(number, text)
  }

  // `message` concatenates its fields.
  function Message(fields: seq<Field>): bytes {
    if fields == [] then [] else Encode(fields[0]) + Message(fields[1..])
  }

  // --- Reading a HelloAck ---

  datatype Value = Number(number: nat) | Texts(texts: seq<bytes>)

  type Fields = map<nat, Value>

  // What `TextDecoder` with `fatal` makes of bytes: none where they are not UTF-8, and otherwise the
  // text, which it gives here as its UTF-8 bytes. A leading byte order mark is dropped.
  function DecodeText(b: bytes, utf8: bytes -> bool): Option<bytes> {
    if !utf8(b) then None
    else Some(StripMark(b))
  }

  function StripMark(b: bytes): bytes {
    if HasMark(b) then b[3..] else b
  }

  predicate HasMark(b: bytes) {
    |b| >= 3 && b[0] == 0xEF && b[1] == 0xBB && b[2] == 0xBF
  }

  // One more field; none where the source throws. Field 6 collects its texts, but spreading a number
  // that came before throws.
  function AddText(fields: Fields, number: nat, text: bytes): Option<Fields> {
    if number != 6 || 6 !in fields then Some(fields[number := Texts([text])])
    else match fields[6]
      case Number(_) => None
      case Texts(texts) => Some(fields[6 := Texts(texts + [text])])
  }

  // One field from `offset` on: the fields with it, and where it ends; none where the source throws.
  function ReadField(p: bytes, offset: nat, fields: Fields, utf8: bytes -> bool): (r: Option<(Fields, nat)>)
    ensures r.Some? ==> offset < r.value.1 <= |p|
  {
    var tag := ReadVarint(p, offset);
    if tag.None? then None
    else
      var number, kind, at := tag.value.0 / 8, tag.value.0 % 8, tag.value.1;
      ReadEnds(p, offset, offset, 0, 1);
      ReadEnds(p, at, at, 0, 1);
      var arg := ReadVarint(p, at);
      if (kind != 0 && kind != 2) || arg.None? then None
      else if kind == 0 then Some((fields[number := Number(arg.value.0)], arg.value.1))
      else ReadText(p, arg.value.1, arg.value.1 + arg.value.0, fields, number, utf8)
  }

  function ReadText(p: bytes, start: nat, end: nat, fields: Fields, number: nat, utf8: bytes -> bool)
    : (r: Option<(Fields, nat)>)
    requires start <= end
    ensures r.Some? ==> r.value.1 == end <= |p|
  {
    if end > |p| then None
    else
      var text := DecodeText(p[start..end], utf8);
      if text.None? then None
      else
        var more := AddText(fields, number, text.value);
        if more.None? then None else Some((more.value, end))
  }

  function ReadFields(p: bytes, offset: nat, fields: Fields, utf8: bytes -> bool): Option<Fields>
    decreases |p| - offset
  {
    if offset >= |p| then Some(fields)
    else
      var more := ReadField(p, offset, fields, utf8);
      if more.None? then None else ReadFields(p, more.value.1, more.value.0, utf8)
  }

  function HelloAckFields(p: bytes, utf8: bytes -> bool): Option<Fields> {
    var tag := ReadVarint(p, 0);
    if tag.None? || tag.value.0 != 18 then None
    else
      var length := ReadVarint(p, tag.value.1);
      if length.None? || length.value.1 + length.value.0 != |p| then None
      else ReadFields(p, length.value.1, map[], utf8)
  }

  method ReadFieldStep(p: bytes, offset: nat, fields: Fields, utf8: bytes -> bool)
    returns (result: Option<(Fields, nat)>)
    ensures result == ReadField(p, offset, fields, utf8)
  {
    hide ReadVarint;
    var tag := ReadVarintLoop(p, offset);
    if tag.None? {
      return None;
    }
    var number, kind := tag.value.0 / 8, tag.value.0 % 8;
    if kind != 0 && kind != 2 {
      return None;
    }
    var arg := ReadVarintLoop(p, tag.value.1);
    if arg.None? {
      return None;
    }
    if kind == 0 {
      return Some((fields[number := Number(arg.value.0)], arg.value.1));
    }
    var start, end := arg.value.1, arg.value.1 + arg.value.0;
    if end > |p| {
      return None;
    }
    var text := DecodeText(p[start..end], utf8);
    if text.None? {
      return None;
    }
    var more := AddText(fields, number, text.value);
    if more.None? {
      return None;
    }
    result := Some((more.value, end));
  }

  method ReadHelloAck(p: bytes, utf8: bytes -> bool) returns (result: Option<Fields>)
    ensures result == HelloAckFields(p, utf8)
  {
    hide ReadVarint, ReadField;
    var tag := ReadVarintLoop(p, 0);
    if tag.None? || tag.value.0 != 18 {
      return None;
    }
    var length := ReadVarintLoop(p, tag.value.1);
    if length.None? || length.value.1 + length.value.0 != |p| {
      return None;
    }
    var fields: Fields, offset := map[], length.value.1;
    while offset < |p|
      invariant HelloAckFields(p, utf8) == ReadFields(p, offset, fields, utf8)
      decreases |p| - offset
    {
      var more := ReadFieldStep(p, offset, fields, utf8);
      if more.None? {
        return None;
      }
      fields, offset := more.value.0, more.value.1;
    }
    result := Some(fields);
  }

  // --- What a list of fields means ---

  // Every number the encoding of a field holds is a safe integer.
  predicate IsSafe(f: Field) {
    match f
    case Uint(number, value) => number * 8 <= MAX_SAFE && value <= MAX_SAFE
    case Text(number, text) => number * 8 + 2 <= MAX_SAFE && |text| <= MAX_SAFE
  }

  function Add(fields: Fields, f: Field, utf8: bytes -> bool): Option<Fields> {
    match f
    case Uint(number, value) => Some(fields[number := Number(value)])
    case Text(number, text) => if utf8(text) then AddText(fields, number, StripMark(text)) else None
  }

  function AddAll(fields: Fields, list: seq<Field>, utf8: bytes -> bool): Option<Fields>
    decreases list
  {
    if list == [] then Some(fields)
    else
      var more := Add(fields, list[0], utf8);
      if more.None? then None else AddAll(more.value, list[1..], utf8)
  }

  // Reading a field undoes writing it.
  lemma ReadsUint(before: bytes, number: nat, value: nat, after: bytes, fields: Fields, utf8: bytes -> bool)
    ensures ReadField(before + UintField(number, value) + after, |before|, fields, utf8)
         == if IsSafe(Uint(number, value))
            then Some((fields[number := Number(value)], |before| + |UintField(number, value)|)) else None
  {
    hide ReadVarint, Varint;
    var tag, arg := Varint(number * 8), Varint(value);
    var p := before + UintField(number, value) + after;
    VarintRoundTrip(before, number * 8, arg + after);
    assert before + tag + (arg + after) == p;
    VarintRoundTrip(before + tag, value, after);
    assert before + tag + arg + after == p;
  }

  lemma ReadsText(before: bytes, number: nat, text: bytes, after: bytes, fields: Fields, utf8: bytes -> bool)
    ensures var more := Add(fields, Text(number, text), utf8);
      ReadField(before + BytesField(number, text) + after, |before|, fields, utf8)
      == if IsSafe(Text(number, text)) && more.Some?
         then Some((more.value, |before| + |BytesField(number, text)|)) else None
  {
    hide ReadVarint, Varint, AddText, StripMark;
    var tag, size := Varint(number * 8 + 2), Varint(|text|);
    var p := before + BytesField(number, text) + after;
    VarintRoundTrip(before, number * 8 + 2, size + text + after);
    assert before + tag + (size + text + after) == p;
    VarintRoundTrip(before + tag, |text|, text + after);
    assert before + tag + size + (text + after) == p;
    var at := |before| + |tag| + |size|;
    assert p[at..at + |text|] == text;
  }

  lemma ReadsEncoded(before: bytes, f: Field, after: bytes, fields: Fields, utf8: bytes -> bool)
    ensures var more := Add(fields, f, utf8);
      ReadField(before + Encode(f) + after, |before|, fields, utf8)
      == if IsSafe(f) && more.Some? then Some((more.value, |before| + |Encode(f)|)) else None
  {
    hide ReadField, UintField, BytesField;
    match f {
      case Uint(number, value) => ReadsUint(before, number, value, after, fields, utf8);
      case Text(number, text) => ReadsText(before, number, text, after, fields, utf8);
    }
  }

  predicate AllSafe(list: seq<Field>) {
    forall f :: f in list ==> IsSafe(f)
  }

  lemma {:induction false} ReadsMessage(before: bytes, list: seq<Field>, fields: Fields, utf8: bytes -> bool)
    ensures ReadFields(before + Message(list), |before|, fields, utf8)
         == if AllSafe(list) then AddAll(fields, list, utf8) else None
    decreases |list|
  {
    hide ReadField, Add, IsSafe, Encode;
    var p := before + Message(list);
    if list == [] {
      return;
    }
    var f, rest := list[0], Message(list[1..]);
    assert list == [f] + list[1..];
    assert AllSafe(list) <==> IsSafe(f) && AllSafe(list[1..]);
    assert p == before + Encode(f) + rest;
    EncodedNotEmpty(f);
    ReadsEncoded(before, f, rest, fields, utf8);
    var more := Add(fields, f, utf8);
    if more.Some? {
      ReadsMessage(before + Encode(f), list[1..], more.value, utf8);
    }
  }

  lemma EncodedNotEmpty(f: Field)
    ensures Encode(f) != []
  {
  }

  // Decoding inverts encoding: the fields read are those written, taken in order, for every list; the
  // reader throws exactly where a number is not a safe integer or the fields themselves do not add up.
  lemma HelloAckRoundTrip(list: seq<Field>, utf8: bytes -> bool)
    ensures HelloAckFields(BytesField(2, Message(list)), utf8)
         == if |Message(list)| <= MAX_SAFE && AllSafe(list) then AddAll(map[], list, utf8)
            else None
  {
    hide ReadVarint, ReadFields, AllSafe, AddAll, Varint;
    var m := Message(list);
    var tag, size := Varint(18), Varint(|m|);
    var p := BytesField(2, m);
    VarintRoundTrip([], 18, size + m);
    assert [] + tag + (size + m) == p;
    VarintRoundTrip(tag, |m|, m);
    assert tag + size + m == p;
    ReadsMessage(tag + size, list, map[], utf8);
  }

  predicate IsNumberSix(f: Field) {
    f.Uint? && f.number == 6
  }

  predicate IsTextSix(f: Field) {
    f.Text? && f.number == 6
  }

  // All texts of field 6, in order.
  function TextsOfSix(list: seq<Field>): seq<bytes> {
    if list == [] then []
    else (if IsTextSix(list[0]) then [StripMark(list[0].text)] else []) + TextsOfSix(list[1..])
  }

  // The last field with a number.
  function LastOf(list: seq<Field>, number: nat): Option<Field> {
    if list == [] then None
    else
      var f := list[|list| - 1];
      if f.number == number then Some(f) else LastOf(list[..|list| - 1], number)
  }

  // The fields add up unless a text is not UTF-8 or a text of field 6 follows a number of field 6.
  predicate AddsUp(list: seq<Field>, utf8: bytes -> bool) {
    && (forall i :: 0 <= i < |list| && list[i].Text? ==> utf8(list[i].text))
    && (forall i, j :: 0 <= i < j < |list| && IsNumberSix(list[i]) ==> !IsTextSix(list[j]))
  }

  lemma {:induction false} AddAllLast(fields: Fields, list: seq<Field>, utf8: bytes -> bool)
    requires list != []
    ensures var init := AddAll(fields, list[..|list| - 1], utf8);
      AddAll(fields, list, utf8) == if init.None? then None else Add(init.value, list[|list| - 1], utf8)
    decreases |list|
  {
    var n := |list| - 1;
    if n == 0 {
      assert list[1..] == [] && list[..0] == [];
    } else {
      var more := Add(fields, list[0], utf8);
      assert list[..n][0] == list[0] && list[..n][1..] == list[1..][..n - 1];
      if more.Some? {
        AddAllLast(more.value, list[1..], utf8);
      }
    }
  }

  lemma {:induction false} TextsOfSixLast(list: seq<Field>)
    requires list != []
    ensures var f := list[|list| - 1];
      TextsOfSix(list) == TextsOfSix(list[..|list| - 1]) + if IsTextSix(f) then [StripMark(f.text)] else []
  {
    var n := |list| - 1;
    if n == 0 {
      assert list[1..] == [] && list[..0] == [];
    } else {
      TextsOfSixLast(list[1..]);
      assert list[..n][0] == list[0] && list[..n][1..] == list[1..][..n - 1];
    }
  }

  // What a key holds: the last value of its field, and for field 6 every text, unless its last value
  // is a number.
  function Expected(list: seq<Field>, number: nat): Option<Value> {
    match LastOf(list, number)
    case None => None
    case Some(Uint(_, value)) => Some(Number(value))
    case Some(Text(_, text)) => Some(Texts(if number == 6 then TextsOfSix(list) else [StripMark(text)]))
  }

  ghost predicate MatchesAt(fields: Fields, list: seq<Field>, number: nat) {
    Expected(list, number) == if number in fields then Some(fields[number]) else None
  }

  lemma {:induction false} AddAllMeaning(list: seq<Field>, utf8: bytes -> bool)
    ensures AddAll(map[], list, utf8).Some? <==> AddsUp(list, utf8)
    ensures AddsUp(list, utf8) ==> forall k :: MatchesAt(AddAll(map[], list, utf8).value, list, k)
    decreases |list|
  {
    hide AddAll, LastOf, TextsOfSix;
    if list == [] {
      NothingAdded(utf8);
      return;
    }
    var n := |list| - 1;
    var init, f := list[..n], list[n];
    AddAllMeaning(init, utf8);
    AddAllLast(map[], list, utf8);
    AddsUpLast(list, utf8);
    if AddsUp(init, utf8) {
      var fields := AddAll(map[], init, utf8).value;
      assert MatchesAt(fields, init, 6);
      SixIsNumber(init, utf8);
      if AddsUp(list, utf8) {
        forall k ensures MatchesAt(AddAll(map[], list, utf8).value, list, k) {
          assert MatchesAt(fields, init, k);
          MatchesNext(fields, list, utf8, k);
        }
      }
    }
  }

  lemma NothingAdded(utf8: bytes -> bool)
    ensures AddAll(map[], [], utf8) == Some(map[]) && forall k :: MatchesAt(map[], [], k)
  {
  }

  lemma AddsUpLast(list: seq<Field>, utf8: bytes -> bool)
    requires list != []
    ensures var n := |list| - 1;
      AddsUp(list, utf8) <==>
        && AddsUp(list[..n], utf8)
        && (list[n].Text? ==> utf8(list[n].text))
        && (IsTextSix(list[n]) ==> forall i :: 0 <= i < n ==> !IsNumberSix(list[i]))
  {
    var n := |list| - 1;
    assert forall i :: 0 <= i < n ==> list[..n][i] == list[i];
  }

  // In a list that adds up, field 6 ends as a number exactly if it ever was one.
  lemma {:induction false} SixIsNumber(list: seq<Field>, utf8: bytes -> bool)
    requires AddsUp(list, utf8)
    ensures (LastOf(list, 6).Some? && LastOf(list, 6).value.Uint?) <==> exists i :: 0 <= i < |list| && IsNumberSix(list[i])
    ensures LastOf(list, 6).Some? ==> LastOf(list, 6).value.number == 6
    ensures LastOf(list, 6).None? ==> TextsOfSix(list) == []
    decreases |list|
  {
    if list != [] {
      var n := |list| - 1;
      assert AddsUp(list[..n], utf8) by {
        AddsUpLast(list, utf8);
      }
      SixIsNumber(list[..n], utf8);
      TextsOfSixLast(list);
      forall i | 0 <= i < n ensures list[..n][i] == list[i] {
      }
      assert (exists i :: 0 <= i < |list| && IsNumberSix(list[i]))
        <==> IsNumberSix(list[n]) || exists i :: 0 <= i < n && IsNumberSix(list[..n][i]);
    }
  }

  lemma MatchesNext(fields: Fields, list: seq<Field>, utf8: bytes -> bool, k: nat)
    requires list != [] && AddsUp(list, utf8)
    requires var init := list[..|list| - 1];
      MatchesAt(fields, init, k) && MatchesAt(fields, init, 6)
    ensures var more := Add(fields, list[|list| - 1], utf8);
      more.Some? && MatchesAt(more.value, list, k)
  {
    var n := |list| - 1;
    AddsUpLast(list, utf8);
    SixIsNumber(list[..n], utf8);
    TextsOfSixLast(list);
    assert !IsTextSix(list[n]) ==> TextsOfSix(list) == TextsOfSix(list[..n]);
    if IsTextSix(list[n]) && 6 !in fields {
      assert TextsOfSix(list) == [StripMark(list[n].text)];
    }
  }

  // What is read from what was written: nothing if some number is not a safe integer or the fields do
  // not add up; otherwise the last value of each field, and for field 6 all texts in order.
  lemma HelloAckDecodes(list: seq<Field>, utf8: bytes -> bool)
    ensures var r := HelloAckFields(BytesField(2, Message(list)), utf8);
      && (r.Some? <==> |Message(list)| <= MAX_SAFE && AllSafe(list) && AddsUp(list, utf8))
      && (r.Some? ==> forall k :: MatchesAt(r.value, list, k))
  {
    hide HelloAckFields, Message, AllSafe, AddsUp, MatchesAt, AddAll;
    HelloAckRoundTrip(list, utf8);
    AddAllMeaning(list, utf8);
  }

  // Nothing is read from a message of another kind, or one whose length is not what it says.
  lemma HelloAckRefuses(tag: nat, length: nat, payload: bytes, utf8: bytes -> bool)
    ensures tag != 18 || length != |payload| ==> HelloAckFields(Varint(tag) + Varint(length) + payload, utf8) == None
    ensures tag == 18 && length == |payload| <= MAX_SAFE ==>
      var p := Varint(tag) + Varint(length) + payload;
      HelloAckFields(p, utf8) == ReadFields(p, |p| - |payload|, map[], utf8)
  {
    hide ReadVarint, Varint, ReadFields;
    var p := Varint(tag) + Varint(length) + payload;
    assert p == [] + Varint(tag) + (Varint(length) + payload);
    VarintRoundTrip([], tag, Varint(length) + payload);
    VarintRoundTrip(Varint(tag), length, payload);
  }

  // A text that starts with a byte order mark does not come back as it was; every other one does.
  lemma TextKeptExactly(number: nat, text: bytes, utf8: bytes -> bool)
    requires IsSafe(Text(number, text)) && |Message([Text(number, text)])| <= MAX_SAFE && utf8(text)
    ensures HelloAckFields(BytesField(2, Message([Text(number, text)])), utf8) == Some(map[number := Texts([text])])
       <==> !(|text| >= 3 && text[0] == 239 && text[1] == 187 && text[2] == 191)
  {
    var f := Text(number, text);
    HelloAckRoundTrip([f], utf8);
    assert AddAll(map[], [f], utf8) == Add(map[], f, utf8);
    assert map[number := Texts([StripMark(text)])][number] == Texts([StripMark(text)]);
  }
}
