/** The text of the chat post announcing one newly stored attachment
    (mail2mattermost.py:79-108), a parser that reads it back, and the proof
    that the two agree. */
module Compose {
  import opened Mail

  const Header: string := "---\r\n"
  const Trailer: string := "TLP: `RED`"
  /** What separates a line's label from its value, and what ends the line. */
  const Sep: string := ": `"
  const End: string := "`\r\n"

  /** One labelled line of the post. */
  datatype Field = Field(name: string, value: string)

  /** A line reads ``Label: `value` `` followed by CR LF. */
  function Line(f: Field): string {
    f.name + Sep + f.value + End
  }

  function Lines(fs: seq<Field>): string {
    if fs == [] then "" else Line(fs[0]) + Lines(fs[1..])
  }

  /** A field whose value is unavailable contributes no line. */
  function Optional(name: string, v: Option<string>): seq<Field> {
    if v.Some? then [Field(name, v.value)] else []
  }

  /** The fields of the post, in their fixed order: subject, sender, date and
      attachment name when available, and the content digest always. */
  function PostFields(m: Message, att: Attachment, digest: string): seq<Field> {
    Optional("Subject", m.subject) + (Optional("Sender", m.sender) + (Optional("Date", m.date)
      + (Optional("Attachment", att.filename) + [Field("sha256", digest)])))
  }

  /** The message text posted for attachment `att` of message `m`. */
  function PostText(m: Message, att: Attachment, digest: string): string {
    Header + Lines(PostFields(m, att, digest)) + Trailer
  }

  /** The value of the first field carrying `name`, if any. */
  function Lookup(fs: seq<Field>, name: string): Option<string> {
    if fs == [] then None
    else if fs[0].name == name then Some(fs[0].value)
    else Lookup(fs[1..], name)
  }

  lemma {:induction false} LinesAppend(fs: seq<Field>, f: Field)
    ensures Lines(fs + [f]) == Lines(fs) + Line(f)
  {
    if fs == [] {
      assert [] + [f] == [f];
      assert Lines([f]) == Line(f) + Lines([]);
    } else {
      assert (fs + [f])[1..] == fs[1..] + [f];
      LinesAppend(fs[1..], f);
    }
  }

  /** The line an optional field contributes: none when it is unavailable. */
  function OptionalLine(name: string, v: Option<string>): string {
    if v.Some? then Line(Field(name, v.value)) else ""
  }

  lemma LinesOptional(name: string, v: Option<string>, rest: seq<Field>)
    ensures Lines(Optional(name, v) + rest) == OptionalLine(name, v) + Lines(rest)
  {
    if v.Some? {
      assert (Optional(name, v) + rest)[1..] == rest;
    } else {
      assert Optional(name, v) + rest == rest;
    }
  }

  /** The post text line by line. */
  lemma PostTextLines(m: Message, att: Attachment, digest: string)
    ensures PostText(m, att, digest)
         == Header + OptionalLine("Subject", m.subject) + OptionalLine("Sender", m.sender)
          + OptionalLine("Date", m.date) + OptionalLine("Attachment", att.filename)
          + Line(Field("sha256", digest)) + Trailer
  {
    var tail := [Field("sha256", digest)];
    var a := Optional("Attachment", att.filename) + tail;
    var d := Optional("Date", m.date) + a;
    var se := Optional("Sender", m.sender) + d;
    var fs := Optional("Subject", m.subject) + se;
    assert Lines(tail) == Line(Field("sha256", digest)) + Lines([]);
    LinesOptional("Attachment", att.filename, tail);
    LinesOptional("Date", m.date, a);
    LinesOptional("Sender", m.sender, d);
    LinesOptional("Subject", m.subject, se);
    Regroup(Header, OptionalLine("Subject", m.subject), OptionalLine("Sender", m.sender),
      OptionalLine("Date", m.date), OptionalLine("Attachment", att.filename),
      Line(Field("sha256", digest)), Trailer);
  }

  lemma Regroup(h: string, a: string, b: string, c: string, d: string, e: string, t: string)
    ensures h + (a + (b + (c + (d + (e + ""))))) + t == h + a + b + c + d + e + t
  {
  }

  /** Builds the post by successive appends, as the worker does; a field
      whose value is unavailable is skipped. */
  method ComposeMessage(m: Message, att: Attachment, digest: string) returns (msg: string)
    ensures msg == PostText(m, att, digest)
  {
    msg := Header;
    if m.subject.Some? {
      msg := msg + Line(Field("Subject", m.subject.value));
    }
    assert msg == Header + OptionalLine("Subject", m.subject);
    if m.sender.Some? {
      msg := msg + Line(Field("Sender", m.sender.value));
    }
    assert msg == Header + OptionalLine("Subject", m.subject) + OptionalLine("Sender", m.sender);
    if m.date.Some? {
      msg := msg + Line(Field("Date", m.date.value));
    }
    assert msg == Header + OptionalLine("Subject", m.subject) + OptionalLine("Sender", m.sender)
      + OptionalLine("Date", m.date);
    if att.filename.Some? {
      msg := msg + Line(Field("Attachment", att.filename.value));
    }
    assert msg == Header + OptionalLine("Subject", m.subject) + OptionalLine("Sender", m.sender)
      + OptionalLine("Date", m.date) + OptionalLine("Attachment", att.filename);
    msg := msg + Line(Field("sha256", digest));
    msg := msg + Trailer;
    PostTextLines(m, att, digest);
  }

  /** The post starts with the separator line, ends with the classification
      tag, and so never ends with a line break. */
  lemma PostTextFrame(m: Message, att: Attachment, digest: string)
    ensures var t := PostText(m, att, digest);
      |t| >= |Header| + |Trailer| && t[..|Header|] == Header && t[|t| - |Trailer|..] == Trailer
      && t[|t| - 1] == '`' && t[|t| - 2..] != "\r\n"
  {
    var t := PostText(m, att, digest);
    var mid := Lines(PostFields(m, att, digest));
    assert t == Header + mid + Trailer;
    assert t[|t| - |Trailer|..] == Trailer;
    assert t[|t| - 1] == Trailer[|Trailer| - 1];
  }

  /** Looking a label up past an optional field. */
  lemma LookupOptional(name: string, v: Option<string>, rest: seq<Field>, key: string)
    ensures Lookup(Optional(name, v) + rest, key)
         == if key == name && v.Some? then v else Lookup(rest, key)
  {
    if v.Some? {
      assert (Optional(name, v) + rest)[1..] == rest;
    } else {
      assert Optional(name, v) + rest == rest;
    }
  }

  /** Each optional field of the post carries exactly the message's value,
      and is absent exactly when that value is unavailable; the digest field
      is always present and always last. */
  lemma PostFieldsLookup(m: Message, att: Attachment, digest: string)
    ensures var fs := PostFields(m, att, digest);
      && Lookup(fs, "Subject") == m.subject
      && Lookup(fs, "Sender") == m.sender
      && Lookup(fs, "Date") == m.date
      && Lookup(fs, "Attachment") == att.filename
      && Lookup(fs, "sha256") == Some(digest)
      && fs[|fs| - 1] == Field("sha256", digest)
  {
    var fs := PostFields(m, att, digest);
    assert Lookup(fs, "Subject") == m.subject by {
      PostFieldsLookupKey(m, att, digest, "Subject");
    }
    assert Lookup(fs, "Sender") == m.sender by {
      assert "Subject"[1] != "Sender"[1];
      PostFieldsLookupKey(m, att, digest, "Sender");
    }
    assert Lookup(fs, "Date") == m.date by {
      assert |"Subject"| != |"Date"| && |"Sender"| != |"Date"|;
      PostFieldsLookupKey(m, att, digest, "Date");
    }
    assert Lookup(fs, "Attachment") == att.filename by {
      assert |"Subject"| != |"Attachment"| && |"Sender"| != |"Attachment"| && |"Date"| != |"Attachment"|;
      PostFieldsLookupKey(m, att, digest, "Attachment");
    }
    assert Lookup(fs, "sha256") == Some(digest) by {
      assert |"Subject"| != |"sha256"| && "sha256"[0] != "Sender"[0];
      assert |"Date"| != |"sha256"| && |"Attachment"| != |"sha256"|;
      PostFieldsLookupKey(m, att, digest, "sha256");
    }
  }

  /** The value the post's fields give `key`: the first available field of
      that name, in the order subject, sender, date, file name, digest. */
  lemma PostFieldsLookupKey(m: Message, att: Attachment, digest: string, key: string)
    ensures Lookup(PostFields(m, att, digest), key)
         == if key == "Subject" && m.subject.Some? then m.subject
            else if key == "Sender" && m.sender.Some? then m.sender
            else if key == "Date" && m.date.Some? then m.date
            else if key == "Attachment" && att.filename.Some? then att.filename
            else if key == "sha256" then Some(digest)
            else None
  {
    var tail := [Field("sha256", digest)];
    var a := Optional("Attachment", att.filename) + tail;
    var d := Optional("Date", m.date) + a;
    var se := Optional("Sender", m.sender) + d;
    LookupOptional("Subject", m.subject, se, key);
    LookupOptional("Sender", m.sender, d, key);
    LookupOptional("Date", m.date, a, key);
    LookupOptional("Attachment", att.filename, tail, key);
    LookupLast(digest, key);
  }

  lemma LookupLast(digest: string, key: string)
    ensures Lookup([Field("sha256", digest)], key) == if key == "sha256" then Some(digest) else None
  {
    assert [Field("sha256", digest)][1..] == [];
  }

  // ----- Reading a post back -----

  /** The index of the first `c` in `s`, or `|s|` when there is none. */
  function IndexOf(s: string, c: char): (k: nat)
    ensures k <= |s| && (k < |s| ==> s[k] == c) && c !in s[..k]
  {
    if s == [] then 0
    else if s[0] == c then 0
    else
      var k := IndexOf(s[1..], c);
      assert s[..k + 1] == [s[0]] + s[1..][..k];
      k + 1
  }

  /** The first `c` of `x + y` is the first character of `y` when `x` has none. */
  lemma {:induction false} IndexOfSplit(x: string, y: string, c: char)
    requires c !in x && |y| > 0 && y[0] == c
    ensures IndexOf(x + y, c) == |x|
  {
    if x != [] {
      assert (x + y)[1..] == x[1..] + y;
      IndexOfSplit(x[1..], y, c);
    }
  }

  /** Reads one line off the front of `s`: its field and what follows it. */
  function ParseLine(s: string): (r: Option<(Field, string)>)
    ensures r.Some? ==> |r.value.1| < |s|
  {
    var k := IndexOf(s, ':');
    if |s| - k < 3 || s[k..k + 3] != Sep then None
    else
      var rest := s[k + 3..];
      var v := IndexOf(rest, '`');
      if |rest| - v < 3 || rest[v..v + 3] != End then None
      else Some((Field(s[..k], rest[..v]), rest[v + 3..]))
  }

  /** Splits a block of lines back into fields; `None` when the block does
      not have the line shape. */
  function ParseLines(s: string): Option<seq<Field>>
    decreases |s|
  {
    if s == [] then Some([])
    else match ParseLine(s)
      case None => None
      case Some((f, rest)) =>
        match ParseLines(rest)
        case None => None
        case Some(fs) => Some([f] + fs)
  }

  /** Reads a post back into its fields; `None` when it is not framed by the
      separator and the classification tag. */
  function ParsePost(t: string): Option<seq<Field>> {
    if |t| >= |Header| + |Trailer| && t[..|Header|] == Header && t[|t| - |Trailer|..] == Trailer
    then ParseLines(t[|Header|..|t| - |Trailer|])
    else None
  }

  /** A field can be read back when its label has no colon and its value no
      backquote. */
  predicate Readable(f: Field) {
    ':' !in f.name && '`' !in f.value
  }

  /** Reading up to a three-character marker finds the marker right after
      a prefix that does not contain its first character. */
  lemma ReadUntil(x: string, marker: string, y: string)
    requires |marker| == 3 && marker[0] !in x
    ensures var s := x + (marker + y);
      && IndexOf(s, marker[0]) == |x| && |s| - |x| >= 3
      && s[..|x|] == x && s[|x|..|x| + 3] == marker && s[|x| + 3..] == y
  {
    var s := x + (marker + y);
    IndexOfSplit(x, marker + y, marker[0]);
    assert s[|x|..] == marker + y;
  }

  lemma ParseLineOf(f: Field, r: string)
    requires Readable(f)
    ensures ParseLine(Line(f) + r) == Some((f, r))
  {
    var rest := f.value + (End + r);
    assert Line(f) + r == f.name + (Sep + rest);
    ReadUntil(f.name, Sep, rest);
    ReadUntil(f.value, End, r);
  }

  lemma {:induction false} ParseLinesRoundTrip(fs: seq<Field>)
    requires forall f :: f in fs ==> Readable(f)
    ensures ParseLines(Lines(fs)) == Some(fs)
  {
    if fs != [] {
      ParseLineOf(fs[0], Lines(fs[1..]));
      ParseLinesRoundTrip(fs[1..]);
      assert [fs[0]] + fs[1..] == fs;
    }
  }

  /** Reading the composed post back yields exactly its fields, provided the
      message's values contain no backquote: the text has a line for a field
      if and only if that field's value was available. */
  lemma PostRoundTrip(m: Message, att: Attachment, digest: HexDigest)
    requires m.subject.Some? ==> '`' !in m.subject.value
    requires m.sender.Some? ==> '`' !in m.sender.value
    requires m.date.Some? ==> '`' !in m.date.value
    requires att.filename.Some? ==> '`' !in att.filename.value
    ensures ParsePost(PostText(m, att, digest)) == Some(PostFields(m, att, digest))
  {
    var fs := PostFields(m, att, digest);
    PostFieldsReadable(m, att, digest);
    ParseLinesRoundTrip(fs);
    var t := PostText(m, att, digest);
    PostTextFrame(m, att, digest);
    assert t[|Header|..|t| - |Trailer|] == Lines(fs);
  }

  lemma PostFieldsReadable(m: Message, att: Attachment, digest: HexDigest)
    requires m.subject.Some? ==> '`' !in m.subject.value
    requires m.sender.Some? ==> '`' !in m.sender.value
    requires m.date.Some? ==> '`' !in m.date.value
    requires att.filename.Some? ==> '`' !in att.filename.value
    ensures forall f :: f in PostFields(m, att, digest) ==> Readable(f)
  {
    assert '`' !in digest by {
      forall i | 0 <= i < |digest| ensures digest[i] != '`' {
        assert IsLowerHexDigit(digest[i]);
      }
    }
    assert ':' !in "Subject" && ':' !in "Sender" && ':' !in "Date";
    assert ':' !in "Attachment" && ':' !in "sha256";
  }
}
