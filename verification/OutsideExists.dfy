/** Everything assumed of the text forms outside the model can be met. */
module OutsideExists {
  import opened Wrappers
  import opened WgTypes
  import opened Text
  import opened Numbers
  import opened Addresses
  import opened UserText
  import opened UserParse
  import opened UserRoundTrip

  // ----- IPv6 text: a colon and hexadecimal digits -----

  function Write6(b: Bytes16): string {
    [':'] + HexText(b)
  }

  function Read6(s: string): Option<Bytes16> {
    if s == "" || s[0] != ':' then None
    else
      match DecodeHex(s[1..])
      case None => None
      case Some(b) => if |b| == 16 then Some(b) else None
  }

  lemma {:induction false} HexReadable(s: string)
    requires DecodeHex(s).Some?
    ensures forall i :: 0 <= i < |s| ==> DigitValue(s[i]) < 16
  {
    if s == [] {
    } else {
      HexReadable(s[..|s| - 2]);
    }
  }

  lemma {:induction false} RoundTrip6(b: Bytes16)
    ensures IP6Text(Write6(b)) && Read6(Write6(b)) == Some(b)
  {
    hide DecodeHex, HexText;
    HexReads(b);
    assert Write6(b)[1..] == HexText(b) && Write6(b)[0] == ':';
  }

  lemma {:induction false} Readable6(s: string)
    requires Read6(s).Some?
    ensures IP6Readable(s)
  {
    hide DecodeHex;
    HexReadable(s[1..]);
    forall i | 0 <= i < |s|
      ensures DigitValue(s[i]) < 16 || s[i] == ':' || s[i] == '.'
    {
      if i > 0 {
        assert s[i] == s[1..][i - 1];
      }
    }
  }

  // ----- JSON strings: line breaks and backslashes are escaped -----

  function Escape(s: string): string {
    if s == "" then ""
    else
      (match s[0]
       case '\n' => ['\\', 'n']
       case '\r' => ['\\', 'r']
       case '\\' => ['\\', '\\']
       case c => [c]) + Escape(s[1..])
  }

  function Unescape(s: string): Option<string> {
    if s == "" then Some("")
    else if s[0] != '\\' then Then(s[0], Unescape(s[1..]))
    else if |s| == 1 then None
    else
      match s[1]
      case 'n' => Then('\n', Unescape(s[2..]))
      case 'r' => Then('\r', Unescape(s[2..]))
      case '\\' => Then('\\', Unescape(s[2..]))
      case _ => None
  }

  function Then(c: char, rest: Option<string>): Option<string> {
    if rest.Some? then Some([c] + rest.value) else None
  }

  function WriteName(name: string): string {
    ['"'] + Escape(name) + ['"']
  }

  function ReadName(s: string): Option<string> {
    if |s| < 2 then None else Unescape(s[1..|s| - 1])
  }

  lemma {:induction false} EscapeReads(s: string)
    ensures Unescape(Escape(s)) == Some(s) && Absent(Escape(s), '\n') && Absent(Escape(s), '\r')
  {
    if s == "" {
    } else {
      EscapeReads(s[1..]);
      var rest, all := Escape(s[1..]), Escape(s);
      assert s == [s[0]] + s[1..];
      if s[0] == '\n' || s[0] == '\r' || s[0] == '\\' {
        assert all[2..] == rest;
      } else {
        assert all[1..] == rest;
      }
    }
  }

  lemma {:induction false} NameReads(name: string)
    ensures Quoted(WriteName(name)) && ReadName(WriteName(name)) == Some(name)
  {
    hide Escape, Unescape;
    EscapeReads(name);
    var s := WriteName(name);
    assert s[1..|s| - 1] == Escape(name);
  }

  // ----- ports: numbers only -----

  function Port(s: string): Option<int> {
    match ParseUint(s, 10, 65535)
    case None => None
    case Some(n) => Some(n)
  }

  /** Text forms that keep all assumed laws, with names that settle at once. */
  function Simplest(): Outside {
    Outside((b: Bytes16) => Write6(b), (s: string) => Read6(s),
            (name: string) => WriteName(name), (s: string) => ReadName(s),
            (s: string) => Port(s), (host: string) => 0, (host: string) => NotFound, None)
  }

  lemma {:induction false} LawfulExists()
    ensures Lawful(Simplest())
  {
    hide Write6, Read6, WriteName, ReadName, IP6Text, IP6Readable, Quoted, Mapped;
    var o := Simplest();
    forall b: Bytes16
      ensures IP6Text(o.writeIP6(b)) && o.readIP6(o.writeIP6(b)) == Some(b)
    {
      RoundTrip6(b);
    }
    forall s | o.readIP6(s).Some?
      ensures IP6Readable(s)
    {
      Readable6(s);
    }
    forall name
      ensures Quoted(o.writeName(name)) && o.readName(o.writeName(name)) == Some(name)
    {
      NameReads(name);
    }
    forall n: nat | n <= 65535
      ensures o.lookupPort(Format(n, 10)) == Some(n)
    {
      ParseFormat(n, 10, 65535);
    }
  }
}
