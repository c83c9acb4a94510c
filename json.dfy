/** The encoding the session store uses for a conversation history: a JSON
    array of JSON objects whose member values are strings (section 4 of
    RFC 8259 for objects, 5 for arrays, 7 for strings). Only `"` and `\` are
    escaped and no whitespace is written; decoding rejects anything else
    with `None`, the counterpart of `json.JSONDecodeError`. */
module Json {
  import opened Text

  /** One message: the members of a JSON object in the order written. */
  type Message = seq<(string, string)>

  /** A conversation history: messages in append order. */
  type History = seq<Message>

  /** `msg.get(key, default)`: the last member named `key` wins, as
      `json.loads` keeps the last of duplicate names. */
  function Get(m: Message, key: string, default: string): string
    decreases |m|
  {
    if |m| == 0 then default
    else if m[|m| - 1].0 == key then m[|m| - 1].1
    else Get(m[..|m| - 1], key, default)
  }

  // ---------------------------------------------------------------- encoding

  function Escape(s: string): string
    decreases |s|
  {
    if |s| == 0 then ""
    else (if s[0] == '"' || s[0] == '\\' then ['\\', s[0]] else [s[0]]) + Escape(s[1..])
  }

  function EncodeString(s: string): string {
    ['"'] + Escape(s) + ['"']
  }

  function EncodeMember(kv: (string, string)): string {
    EncodeString(kv.0) + [':'] + EncodeString(kv.1)
  }

  function EncodeMembers(m: Message): string
    decreases |m|
  {
    if |m| == 0 then ""
    else if |m| == 1 then EncodeMember(m[0])
    else EncodeMember(m[0]) + [','] + EncodeMembers(m[1..])
  }

  /** `json.dumps` of one message. */
  function EncodeObject(m: Message): string {
    ['{'] + EncodeMembers(m) + ['}']
  }

  function EncodeItems(h: History): string
    decreases |h|
  {
    if |h| == 0 then ""
    else if |h| == 1 then EncodeObject(h[0])
    else EncodeObject(h[0]) + [','] + EncodeItems(h[1..])
  }

  /** `json.dumps` of a history. */
  function Encode(h: History): string {
    ['['] + EncodeItems(h) + [']']
  }

  // ---------------------------------------------------------------- decoding

  /** The characters of a string literal after its opening quote, and what
      follows its closing quote. */
  function ParseChars(s: string): (r: Option<(string, string)>)
    ensures r.Some? ==> |r.value.1| < |s|
    decreases |s|
  {
    if |s| == 0 then None
    else if s[0] == '"' then Some(("", s[1..]))
    else if s[0] == '\\' then
      if |s| < 2 then None
      else match ParseChars(s[2..])
        case None => None
        case Some((v, rest)) => Some(([s[1]] + v, rest))
    else match ParseChars(s[1..])
      case None => None
      case Some((v, rest)) => Some(([s[0]] + v, rest))
  }

  function ParseString(s: string): (r: Option<(string, string)>)
    ensures r.Some? ==> |r.value.1| < |s|
  {
    if |s| > 0 && s[0] == '"' then ParseChars(s[1..]) else None
  }

  function ParseMember(s: string): (r: Option<((string, string), string)>)
    ensures r.Some? ==> |r.value.1| < |s|
  {
    match ParseString(s)
    case None => None
    case Some((k, r1)) =>
      if |r1| > 0 && r1[0] == ':' then
        match ParseString(r1[1..])
        case None => None
        case Some((v, r2)) => Some(((k, v), r2))
      else None
  }

  /** One or more members, comma separated, then the closing brace. */
  function ParseMembers(s: string): (r: Option<(Message, string)>)
    ensures r.Some? ==> |r.value.1| < |s|
    decreases |s|
  {
    match ParseMember(s)
    case None => None
    case Some((kv, r1)) =>
      if |r1| > 0 && r1[0] == ',' then
        match ParseMembers(r1[1..])
        case None => None
        case Some((m, r2)) => Some(([kv] + m, r2))
      else if |r1| > 0 && r1[0] == '}' then Some(([kv], r1[1..]))
      else None
  }

  function ParseObject(s: string): (r: Option<(Message, string)>)
    ensures r.Some? ==> |r.value.1| < |s|
  {
    if |s| > 0 && s[0] == '{' then
      if |s| > 1 && s[1] == '}' then Some(([], s[2..])) else ParseMembers(s[1..])
    else None
  }

  /** One or more objects, comma separated, then the closing bracket. */
  function ParseItems(s: string): (r: Option<(History, string)>)
    ensures r.Some? ==> |r.value.1| < |s|
    decreases |s|
  {
    match ParseObject(s)
    case None => None
    case Some((m, r1)) =>
      if |r1| > 0 && r1[0] == ',' then
        match ParseItems(r1[1..])
        case None => None
        case Some((h, r2)) => Some(([m] + h, r2))
      else if |r1| > 0 && r1[0] == ']' then Some(([m], r1[1..]))
      else None
  }

  function ParseArray(s: string): (r: Option<(History, string)>)
    ensures r.Some? ==> |r.value.1| < |s|
  {
    if |s| > 0 && s[0] == '[' then
      if |s| > 1 && s[1] == ']' then Some(([], s[2..])) else ParseItems(s[1..])
    else None
  }

  /** `json.loads` of a stored history; `None` when the text is not one whole
      encoded history. */
  function Decode(s: string): Option<History> {
    match ParseArray(s)
    case Some((h, rest)) => if rest == "" then Some(h) else None
    case None => None
  }

  // ---------------------------------------------------------------- round trip

  lemma {:induction false} ParseCharsEscape(v: string, rest: string)
    ensures ParseChars(Escape(v) + ['"'] + rest) == Some((v, rest))
    decreases |v|
  {
    var s := Escape(v) + ['"'] + rest;
    if |v| == 0 {
      assert s == ['"'] + rest;
    } else {
      ParseCharsEscape(v[1..], rest);
      var tail := Escape(v[1..]) + ['"'] + rest;
      if v[0] == '"' || v[0] == '\\' {
        assert s == ['\\', v[0]] + tail;
        assert s[2..] == tail;
      } else {
        assert s == [v[0]] + tail;
        assert s[1..] == tail;
      }
      assert [v[0]] + v[1..] == v;
    }
  }

  lemma ParseStringEncoded(v: string, rest: string)
    ensures ParseString(EncodeString(v) + rest) == Some((v, rest))
  {
    var s := EncodeString(v) + rest;
    assert s[1..] == Escape(v) + ['"'] + rest;
    ParseCharsEscape(v, rest);
  }

  lemma ParseMemberEncoded(kv: (string, string), rest: string)
    ensures ParseMember(EncodeMember(kv) + rest) == Some((kv, rest))
  {
    var tail := [':'] + EncodeString(kv.1) + rest;
    assert EncodeMember(kv) + rest == EncodeString(kv.0) + tail;
    ParseStringEncoded(kv.0, tail);
    assert tail[1..] == EncodeString(kv.1) + rest;
    ParseStringEncoded(kv.1, rest);
  }

  /** A member followed by a comma: the rest of the members follow. */
  lemma MembersMore(s: string, kv: (string, string), inner: string, m: Message, rest: string)
    requires ParseMember(s) == Some((kv, [','] + inner))
    requires ParseMembers(inner) == Some((m, rest))
    ensures ParseMembers(s) == Some(([kv] + m, rest))
  {
    assert ([','] + inner)[1..] == inner;
  }

  /** A member followed by the closing brace ends the object. */
  lemma MembersLast(s: string, kv: (string, string), rest: string)
    requires ParseMember(s) == Some((kv, ['}'] + rest))
    ensures ParseMembers(s) == Some(([kv], rest))
  {
    assert (['}'] + rest)[1..] == rest;
  }

  lemma ParseMembersEncodedOne(m: Message, rest: string)
    requires |m| == 1
    ensures ParseMembers(EncodeMembers(m) + ['}'] + rest) == Some((m, rest))
  {
    var s := EncodeMembers(m) + ['}'] + rest;
    var tail := ['}'] + rest;
    assert ParseMember(s) == Some((m[0], tail)) by {
      assert s == EncodeMember(m[0]) + tail;
      ParseMemberEncoded(m[0], tail);
    }
    MembersLast(s, m[0], rest);
    assert m == [m[0]];
  }

  lemma {:induction false} ParseMembersEncoded(m: Message, rest: string)
    requires |m| >= 1
    ensures ParseMembers(EncodeMembers(m) + ['}'] + rest) == Some((m, rest))
    decreases |m|
  {
    var s := EncodeMembers(m) + ['}'] + rest;
    if |m| == 1 {
      ParseMembersEncodedOne(m, rest);
    } else {
      var inner := EncodeMembers(m[1..]) + ['}'] + rest;
      assert ParseMember(s) == Some((m[0], [','] + inner)) by {
        assert s == EncodeMember(m[0]) + ([','] + inner);
        ParseMemberEncoded(m[0], [','] + inner);
      }
      ParseMembersEncoded(m[1..], rest);
      MembersMore(s, m[0], inner, m[1..], rest);
      assert [m[0]] + m[1..] == m;
    }
  }

  lemma ParseObjectEncoded(m: Message, rest: string)
    ensures ParseObject(EncodeObject(m) + rest) == Some((m, rest))
  {
    var s := EncodeObject(m) + rest;
    if |m| == 0 {
      assert s == ['{', '}'] + rest;
    } else {
      assert ParseMembers(s[1..]) == Some((m, rest)) by {
        assert s[1..] == EncodeMembers(m) + ['}'] + rest;
        ParseMembersEncoded(m, rest);
      }
      assert s[1] == '"' by {
        var e := EncodeMember(m[0]);
        assert e[0] == '"';
      }
    }
  }

  /** An object followed by a comma: the rest of the items follow. */
  lemma ItemsMore(s: string, m: Message, inner: string, h: History, rest: string)
    requires ParseObject(s) == Some((m, [','] + inner))
    requires ParseItems(inner) == Some((h, rest))
    ensures ParseItems(s) == Some(([m] + h, rest))
  {
    assert ([','] + inner)[1..] == inner;
  }

  /** An object followed by the closing bracket ends the array. */
  lemma ItemsLast(s: string, m: Message, rest: string)
    requires ParseObject(s) == Some((m, [']'] + rest))
    ensures ParseItems(s) == Some(([m], rest))
  {
    assert ([']'] + rest)[1..] == rest;
  }

  lemma ParseItemsEncodedOne(h: History, rest: string)
    requires |h| == 1
    ensures ParseItems(EncodeItems(h) + [']'] + rest) == Some((h, rest))
  {
    var s := EncodeItems(h) + [']'] + rest;
    var tail := [']'] + rest;
    assert ParseObject(s) == Some((h[0], tail)) by {
      assert s == EncodeObject(h[0]) + tail;
      ParseObjectEncoded(h[0], tail);
    }
    ItemsLast(s, h[0], rest);
    assert h == [h[0]];
  }

  lemma {:induction false} ParseItemsEncoded(h: History, rest: string)
    requires |h| >= 1
    ensures ParseItems(EncodeItems(h) + [']'] + rest) == Some((h, rest))
    decreases |h|
  {
    var s := EncodeItems(h) + [']'] + rest;
    if |h| == 1 {
      ParseItemsEncodedOne(h, rest);
    } else {
      var inner := EncodeItems(h[1..]) + [']'] + rest;
      assert ParseObject(s) == Some((h[0], [','] + inner)) by {
        assert s == EncodeObject(h[0]) + ([','] + inner);
        ParseObjectEncoded(h[0], [','] + inner);
      }
      ParseItemsEncoded(h[1..], rest);
      ItemsMore(s, h[0], inner, h[1..], rest);
      assert [h[0]] + h[1..] == h;
    }
  }

  lemma ParseArrayEncoded(h: History)
    ensures ParseArray(Encode(h)) == Some((h, ""))
  {
    var s := Encode(h);
    if |h| == 0 {
      assert s == ['[', ']'];
      assert s[2..] == "";
    } else {
      assert ParseItems(s[1..]) == Some((h, "")) by {
        assert s[1..] == EncodeItems(h) + [']'] + "";
        ParseItemsEncoded(h, "");
      }
      assert s[1] == '{' by {
        assert EncodeObject(h[0])[0] == '{';
      }
    }
  }

  /** Decoding an encoded history gives it back. */
  lemma DecodeEncode(h: History)
    ensures Decode(Encode(h)) == Some(h)
  {
    ParseArrayEncoded(h);
  }
}
