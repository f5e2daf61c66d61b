/**
 The JSON text the chaincode stores for a record, a simplified form of what
 Go's encoding/json writes: a value is a string or an object, an object's
 members appear in declaration order with no whitespace, and in string bodies
 only the quote and the backslash are escaped. The
 decoder reads back objects whose members are all strings, with the member
 names expected, and is the encoder's inverse on them.
 */
module Json {
  import opened Wrappers

  datatype Value = Str(text: string) | Obj(fields: seq<Field>)
  datatype Field = Field(name: string, value: Value)

  /** A string body character escaped: the quote and the backslash get a backslash in front. */
  function EscapeChar(c: char): string {
    if c == '"' || c == '\\' then ['\\', c] else [c]
  }

  function Escape(s: string): string
    decreases |s|
  {
    if |s| == 0 then "" else EscapeChar(s[0]) + Escape(s[1..])
  }

  function Encode(v: Value): string
    decreases v, 1, 0
  {
    match v
    case Str(t) => "\"" + Escape(t) + "\""
    case Obj(_) => "{" + EncodeFields(v, 0) + "}"
  }

  /** The members of object v from the i-th on, each after a comma unless it is the first. */
  function EncodeFields(v: Value, i: nat): string
    requires v.Obj? && i <= |v.fields|
    decreases v, 0, |v.fields| - i
  {
    if i == |v.fields| then ""
    else
      (if i == 0 then "" else ",") + "\"" + v.fields[i].name + "\":" + Encode(v.fields[i].value)
      + EncodeFields(v, i + 1)
  }

  /** The object with the given member names, each holding the matching string. */
  function StringObject(names: seq<string>, texts: seq<string>): Value
    requires |names| == |texts|
  {
    Obj(seq(|names|, i requires 0 <= i < |names| => Field(names[i], Str(texts[i]))))
  }

  /**
   Reads an escaped string body up to and including its closing quote;
   gives the decoded body and the text after the quote.
   */
  function Unescape(s: string): Option<(string, string)>
    decreases |s|
  {
    if |s| == 0 then None
    else if s[0] == '"' then Some(([], s[1..]))
    else if s[0] == '\\' then
      if |s| < 2 || (s[1] != '"' && s[1] != '\\') then None
      else match Unescape(s[2..])
        case None => None
        case Some((body, rest)) => Some(([s[1]] + body, rest))
    else match Unescape(s[1..])
      case None => None
      case Some((body, rest)) => Some(([s[0]] + body, rest))
  }

  lemma {:induction false} UnescapeEscape(x: string, rest: string)
    ensures Unescape(Escape(x) + "\"" + rest) == Some((x, rest))
    decreases |x|
  {
    var s := Escape(x) + "\"" + rest;
    if |x| == 0 {
      assert s == "\"" + rest;
      assert s[1..] == rest;
    } else {
      var tail := Escape(x[1..]) + "\"" + rest;
      assert s == EscapeChar(x[0]) + tail;
      UnescapeEscape(x[1..], rest);
      if x[0] == '"' || x[0] == '\\' {
        assert s[2..] == tail;
      } else {
        assert s[1..] == tail;
      }
      assert [x[0]] + x[1..] == x;
    }
  }

  /** The text after prefix, when s starts with it. */
  function Strip(prefix: string, s: string): (r: Option<string>)
    ensures r.Some? <==> |prefix| <= |s| && s[..|prefix|] == prefix
    ensures r.Some? ==> prefix + r.value == s
  {
    if |prefix| <= |s| && s[..|prefix|] == prefix then Some(s[|prefix|..]) else None
  }

  /**
   Reads string members named names, in that order, the first one preceded
   by lead; gives their values and the text after them.
   */
  function DecodeMembers(names: seq<string>, s: string, lead: string): (r: Option<(seq<string>, string)>)
    ensures r.Some? ==> |r.value.0| == |names|
    decreases |names|
  {
    if |names| == 0 then Some(([], s))
    else match Strip(lead + "\"" + names[0] + "\":\"", s)
      case None => None
      case Some(afterName) =>
        match Unescape(afterName)
        case None => None
        case Some((value, afterValue)) =>
          match DecodeMembers(names[1..], afterValue, ",")
          case None => None
          case Some((values, rest)) => Some(([value] + values, rest))
  }

  /** The member values of a string-valued object with exactly the given member names, in order. */
  function DecodeObject(names: seq<string>, s: string): (r: Option<seq<string>>)
    ensures r.Some? ==> |r.value| == |names|
  {
    match Strip("{", s)
    case None => None
    case Some(body) =>
      match DecodeMembers(names, body, "")
      case None => None
      case Some((values, rest)) => if rest == "}" then Some(values) else None
  }

  /** The i-th member of a string-valued object, as text, followed by the members after it and then tail. */
  lemma EncodeFieldsStep(names: seq<string>, texts: seq<string>, i: nat, tail: string)
    requires |names| == |texts| && i < |names|
    ensures EncodeFields(StringObject(names, texts), i) + tail ==
      (if i == 0 then "" else ",") + "\"" + names[i] + "\":\""
      + (Escape(texts[i]) + "\"" + (EncodeFields(StringObject(names, texts), i + 1) + tail))
  {
  }

  /** DecodeMembers reads one member and hands the text after its value on to the rest. */
  lemma DecodeMembersStep(names: seq<string>, s: string, lead: string, afterName: string, value: string,
                          afterValue: string, values: seq<string>, rest: string)
    requires |names| > 0
    requires s == lead + "\"" + names[0] + "\":\"" + afterName
    requires Unescape(afterName) == Some((value, afterValue))
    requires DecodeMembers(names[1..], afterValue, ",") == Some((values, rest))
    ensures DecodeMembers(names, s, lead) == Some(([value] + values, rest))
  {
  }

  lemma {:induction false} DecodeFieldsRoundTrip(names: seq<string>, texts: seq<string>, i: nat, tail: string)
    requires |names| == |texts| && i <= |names|
    ensures DecodeMembers(names[i..], EncodeFields(StringObject(names, texts), i) + tail, if i == 0 then "" else ",")
      == Some((texts[i..], tail))
    decreases |names| - i
  {
    var v := StringObject(names, texts);
    if i == |names| {
      assert EncodeFields(v, i) + tail == tail;
      assert texts[i..] == [];
    } else {
      var lead := if i == 0 then "" else ",";
      var later := EncodeFields(v, i + 1) + tail;
      var afterName := Escape(texts[i]) + "\"" + later;
      EncodeFieldsStep(names, texts, i, tail);
      assert names[i..][0] == names[i] && names[i..][1..] == names[i + 1..];
      UnescapeEscape(texts[i], later);
      DecodeFieldsRoundTrip(names, texts, i + 1, tail);
      DecodeMembersStep(names[i..], EncodeFields(v, i) + tail, lead, afterName, texts[i], later, texts[i + 1..], tail);
      assert [texts[i]] + texts[i + 1..] == texts[i..];
    }
  }

  /** Decoding the encoding of a string-valued object gives back its member values. */
  lemma ObjectRoundTrip(names: seq<string>, texts: seq<string>)
    requires |names| == |texts|
    ensures DecodeObject(names, Encode(StringObject(names, texts))) == Some(texts)
  {
    var s := Encode(StringObject(names, texts));
    var body := EncodeFields(StringObject(names, texts), 0) + "}";
    assert s == "{" + body;
    assert s[..1] == "{" && s[1..] == body;
    DecodeFieldsRoundTrip(names, texts, 0, "}");
    assert names[0..] == names && texts[0..] == texts;
  }
}
