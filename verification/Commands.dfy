/** Client commands and their wire format (src/kvstore/Command.cpp). */
module Commands {
  import opened Wrappers
  import opened ByteCodec

  datatype Meta = Meta(clientId: u64, sequenceNum: u64)

  datatype Command =
    | Put(meta: Meta, key: Bytes, value: Bytes)
    | Append(meta: Meta, key: Bytes, value: Bytes)
    | Get(meta: Meta, key: Bytes)

  const PUT: byte := 1
  const APPEND: byte := 2
  const GET: byte := 3

  // ---- Layout ------------------------------------------------------------

  /** A string is its length in four bytes, then its bytes; longer strings are refused. */
  function StringLayout(s: Bytes): Option<Bytes> {
    if |s| >= TWO_TO_32 then None else Some(LittleEndian(|s|, 4) + s)
  }

  function MetaLayout(m: Meta): Bytes {
    LittleEndian(m.clientId, 8) + LittleEndian(m.sequenceNum, 8)
  }

  function PairLayout(key: Bytes, value: Bytes): Option<Bytes> {
    match (StringLayout(key), StringLayout(value))
    case (Some(k), Some(v)) => Some(k + v)
    case _ => None
  }

  /** The bytes of a command; `None` where the serializer throws. */
  function Layout(c: Command): Option<Bytes> {
    match c
    case Put(m, key, value) =>
      var p := PairLayout(key, value);
      if p.None? then None else Some([PUT] + MetaLayout(m) + p.value)
    case Append(m, key, value) =>
      var p := PairLayout(key, value);
      if p.None? then None else Some([APPEND] + MetaLayout(m) + p.value)
    case Get(m, key) =>
      var k := StringLayout(key);
      if k.None? then None else Some([GET] + MetaLayout(m) + k.value)
  }

  // ---- Parsing -----------------------------------------------------------

  function ParseString(input: Bytes): Parsed<Bytes> {
    var len := ParseUint(input, 4);
    if len.Underrun? || len.value > |len.rest| then Underrun
    else Parsed(len.rest[..len.value], len.rest[len.value..])
  }

  function ParseMeta(input: Bytes): Parsed<Meta> {
    var id := ParseUint(input, 8);
    if id.Underrun? then Underrun
    else
      var seqNum := ParseUint(id.rest, 8);
      if seqNum.Underrun? then Underrun
      else
        assert id.value < TWO_TO_64 by { UintLayoutOf(input, 8); Pow256Widths(); }
        assert seqNum.value < TWO_TO_64 by { UintLayoutOf(id.rest, 8); Pow256Widths(); }
        Parsed(Meta(id.value, seqNum.value), seqNum.rest)
  }

  /** The command a buffer starts with; `None` where the deserializer throws.
      Bytes after the command are ignored. */
  function Parse(input: Bytes): Option<Command> {
    if input == [] || !(PUT <= input[0] <= GET) then None
    else
      var m := ParseMeta(input[1..]);
      if m.Underrun? then None
      else
        var key := ParseString(m.rest);
        if key.Underrun? then None
        else if input[0] == GET then Some(Get(m.value, key.value))
        else
          var value := ParseString(key.rest);
          if value.Underrun? then None
          else if input[0] == PUT then Some(Put(m.value, key.value, value.value))
          else Some(Append(m.value, key.value, value.value))
  }

  // ---- The layout and the parser are inverse -----------------------------------

  /** Serialization fails exactly for strings whose length does not fit four bytes. */
  lemma LayoutFailsIff(c: Command)
    ensures Layout(c).None? <==> |c.key| >= TWO_TO_32 || (!c.Get? && |c.value| >= TWO_TO_32)
  {
  }

  lemma ParseStringOf(s: Bytes, rest: Bytes)
    requires |s| < TWO_TO_32
    ensures ParseString(StringLayout(s).value + rest) == Parsed(s, rest)
  {
    Pow256Widths();
    assert StringLayout(s).value + rest == LittleEndian(|s|, 4) + (s + rest);
    ParseUintOf(|s|, 4, s + rest);
    assert (s + rest)[..|s|] == s && (s + rest)[|s|..] == rest;
  }

  lemma ParseMetaOf(m: Meta, rest: Bytes)
    ensures ParseMeta(MetaLayout(m) + rest) == Parsed(m, rest)
  {
    Pow256Widths();
    var tail := LittleEndian(m.sequenceNum, 8) + rest;
    assert MetaLayout(m) + rest == LittleEndian(m.clientId, 8) + tail;
    ParseUintOf(m.clientId, 8, tail);
    ParseUintOf(m.sequenceNum, 8, rest);
  }

  /** Round trip: a serialized command parses back to itself, whatever follows it. */
  lemma ParseOfLayout(c: Command, rest: Bytes)
    requires Layout(c).Some?
    ensures Parse(Layout(c).value + rest) == Some(c)
  {
    hide MetaLayout, ParseMeta, ParseString;
    var bytes := Layout(c).value + rest;
    var key := StringLayout(c.key).value;
    if c.Get? {
      assert bytes[1..] == MetaLayout(c.meta) + (key + rest);
      ParseMetaOf(c.meta, key + rest);
      ParseStringOf(c.key, rest);
    } else {
      var value := StringLayout(c.value).value;
      assert bytes[1..] == MetaLayout(c.meta) + (key + (value + rest));
      ParseMetaOf(c.meta, key + (value + rest));
      ParseStringOf(c.key, value + rest);
      ParseStringOf(c.value, rest);
    }
  }

  lemma StringLayoutOf(input: Bytes)
    requires ParseString(input).Parsed?
    ensures var s := ParseString(input);
      |s.value| < TWO_TO_32 && input == StringLayout(s.value).value + s.rest
  {
    Pow256Widths();
    UintLayoutOf(input, 4);
  }

  lemma MetaLayoutOf(input: Bytes)
    requires ParseMeta(input).Parsed?
    ensures input == MetaLayout(ParseMeta(input).value) + ParseMeta(input).rest
  {
    UintLayoutOf(input, 8);
    UintLayoutOf(ParseUint(input, 8).rest, 8);
  }

  /** The converse: whatever parses is the serialization of the result, perhaps with bytes after it. */
  lemma LayoutOfParse(input: Bytes)
    requires Parse(input).Some?
    ensures Layout(Parse(input).value).Some?
    ensures Layout(Parse(input).value).value <= input
  {
    hide ParseMeta, ParseString, MetaLayout, StringLayout;
    var m := ParseMeta(input[1..]);
    var key := ParseString(m.rest);
    MetaLayoutOf(input[1..]);
    StringLayoutOf(m.rest);
    ShortStringLayout(key.value);
    var head := [input[0]] + MetaLayout(m.value);
    assert input == head + m.rest;
    if input[0] == GET {
      Regroup(head, StringLayout(key.value).value, [], key.rest);
    } else {
      var value := ParseString(key.rest);
      StringLayoutOf(key.rest);
      ShortStringLayout(value.value);
      Regroup(head, StringLayout(key.value).value, StringLayout(value.value).value, value.rest);
    }
  }

  lemma ShortStringLayout(s: Bytes)
    ensures StringLayout(s).Some? <==> |s| < TWO_TO_32
  {
  }

  lemma Regroup(head: Bytes, a: Bytes, b: Bytes, rest: Bytes)
    ensures head + (a + (b + rest)) == (head + (a + b)) + rest
    ensures head + (a + b) <= head + (a + (b + rest))
    ensures [] + rest == rest && a + [] == a
  {
    assert head + (a + (b + rest)) == (head + (a + b)) + rest;
  }

  /** No serialization is a prefix of another, so none stands for two commands. */
  lemma LayoutIsPrefixFree(c: Command, d: Command)
    requires Layout(c).Some? && Layout(d).Some? && Layout(c).value <= Layout(d).value
    ensures c == d
  {
    var a, b := Layout(c).value, Layout(d).value;
    ParseOfLayout(c, b[|a|..]);
    ParseOfLayout(d, []);
    assert a + b[|a|..] == b && b + [] == b;
  }

  // ---- The code ----------------------------------------------------------------

  method WriteString(out: Bytes, s: Bytes) returns (out': Option<Bytes>)
    ensures out' == if |s| < TWO_TO_32 then Some(out + StringLayout(s).value) else None
  {
    if |s| > TWO_TO_32 - 1 {
      return None;
    }
    var withLength := WriteLittleEndian(out, |s|, 4);
    assert withLength + s == out + (LittleEndian(|s|, 4) + s);
    out' := Some(withLength + s);
  }

  method WriteMeta(out: Bytes, m: Meta) returns (out': Bytes)
    ensures out' == out + MetaLayout(m)
  {
    hide LittleEndian;
    out' := WriteLittleEndian(out, m.clientId, 8);
    out' := WriteLittleEndian(out', m.sequenceNum, 8);
  }

  method Serialize(c: Command) returns (bytes: Option<Bytes>)
    ensures bytes == Layout(c)
  {
    var tag := match c case Put(_, _, _) => PUT case Append(_, _, _) => APPEND case Get(_, _) => GET;
    var buffer := WriteMeta([tag], c.meta);
    bytes := WriteString(buffer, c.key);
    if bytes.Some? && !c.Get? {
      var upToKey := bytes.value;
      bytes := WriteString(upToKey, c.value);
      assert bytes.Some? ==> bytes.value == buffer + (StringLayout(c.key).value + StringLayout(c.value).value);
    }
  }

  method ReadString(input: Bytes, offset: nat) returns (s: Option<Bytes>, offset': nat)
    requires offset <= |input|
    ensures offset' <= |input|
    ensures match ParseString(input[offset..])
            case Underrun => s == None
            case Parsed(v, rest) => s == Some(v) && rest == input[offset'..]
  {
    var len;
    len, offset' := ReadLittleEndian(input, offset, 4);
    if len.None? {
      return None, offset;
    }
    if offset' + len.value > |input| {
      return None, offset;
    }
    s := Some(input[offset'..offset' + len.value]);
    assert input[offset'..][..len.value] == s.value && input[offset'..][len.value..] == input[offset' + len.value..];
    offset' := offset' + len.value;
  }

  method ReadMeta(input: Bytes, offset: nat) returns (m: Option<Meta>, offset': nat)
    requires offset <= |input|
    ensures offset' <= |input|
    ensures match ParseMeta(input[offset..])
            case Underrun => m == None
            case Parsed(v, rest) => m == Some(v) && rest == input[offset'..]
  {
    var id, seqNum;
    id, offset' := ReadLittleEndian(input, offset, 8);
    if id.None? {
      return None, offset;
    }
    var middle := offset';
    seqNum, offset' := ReadLittleEndian(input, middle, 8);
    if seqNum.None? {
      return None, offset;
    }
    UintLayoutOf(input[offset..], 8);
    UintLayoutOf(input[middle..], 8);
    Pow256Widths();
    m := Some(Meta(id.value, seqNum.value));
  }

  method Deserialize(bytes: Bytes) returns (c: Option<Command>)
    ensures c == Parse(bytes)
  {
    if bytes == [] {
      return None;
    }
    var tag := bytes[0];
    if tag != PUT && tag != APPEND && tag != GET {
      return None;
    }
    var meta, offset := ReadMeta(bytes, 1);
    if meta.None? {
      return None;
    }
    var key;
    key, offset := ReadString(bytes, offset);
    if key.None? {
      return None;
    }
    if tag == GET {
      return Some(Get(meta.value, key.value));
    }
    var value;
    value, offset := ReadString(bytes, offset);
    if value.None? {
      return None;
    }
    c := if tag == PUT then Some(Put(meta.value, key.value, value.value))
         else Some(Append(meta.value, key.value, value.value));
  }
}
