/** Close codes and their reasons on the wire (uni_protocol/closecode.go). */
module CloseCode {
  import opened Decimal
  import opened Utf8

  const MAX_CLOSE_REASON_BYTES := 123

  /** `closeReasons`. */
  const CLOSE_REASONS: map<int, string> := map[
    4000 := "protocol version not supported",
    4001 := "unauthorized",
    4002 := "malformed message",
    4003 := "unsupported or wrong-direction message type",
    4004 := "duplicate instance",
    4005 := "heartbeat timeout",
    4006 := "rate limited",
    4007 := "server shutting down",
    4008 := "protocol violation",
    4009 := "upgrade target changed, please reconnect"]

  function Human(code: int): string {
    match code
    case 4000 => "protocol version not supported"
    case 4001 => "unauthorized"
    case 4002 => "malformed message"
    case 4003 => "unsupported or wrong-direction message type"
    case 4004 => "duplicate instance"
    case 4005 => "heartbeat timeout"
    case 4006 => "rate limited"
    case 4007 => "server shutting down"
    case 4008 => "protocol violation"
    case 4009 => "upgrade target changed, please reconnect"
    case _ => "closed"
  }

  /**
    `CloseReason`: for every code that fits in an int the text is within the limit, so nothing is cut
    off, and valid.
   */
  method CloseReason(code: int) returns (r: string)
    requires -0x8000_0000_0000_0000 <= code < 0x8000_0000_0000_0000
    ensures r == Itoa(code) + "|" + Human(code)
    ensures |r| <= MAX_CLOSE_REASON_BYTES && Valid(r)
  {
    var human := "closed";
    if code in CLOSE_REASONS {
      human := CLOSE_REASONS[code];
    }
    KnownReason(code);
    var text := Itoa(code) + "|" + human;
    ReasonIsValid(code);
    hide Human, Itoa, Valid;
    ShortCode(code);
    HumanIsShort(code);
    r := TruncateUTF8(text, MAX_CLOSE_REASON_BYTES);
  }

  lemma KnownReason(code: int)
    ensures Human(code) == if code in CLOSE_REASONS then CLOSE_REASONS[code] else "closed"
  {
  }

  lemma ShortCode(code: int)
    requires -0x8000_0000_0000_0000 <= code < 0x8000_0000_0000_0000
    ensures |Itoa(code)| <= 20
  {
    var n := if code < 0 then -code else code;
    Nineteen();
    FormatLength(n, 19);
  }

  lemma Nineteen()
    ensures Pow10(19) == 10_000_000_000_000_000_000
  {
    assert Pow10(4) == 10_000;
    assert Pow10(8) == 100_000_000;
    assert Pow10(12) == 1_000_000_000_000;
    assert Pow10(16) == 10_000_000_000_000_000;
  }

  predicate Ascii(s: string) {
    forall i :: 0 <= i < |s| ==> s[i] <= '\U{7F}'
  }

  lemma {:induction false} AsciiIsValid(s: string)
    requires Ascii(s)
    ensures Valid(s)
  {
    if s != "" {
      AsciiIsValid(s[1..]);
      assert IsChar(s[..1]);
    }
  }

  lemma ReasonIsValid(code: int)
    ensures Valid(Itoa(code) + "|" + Human(code))
  {
    hide Valid, Human, Itoa;
    HumanIsAscii(code);
    NumeralIsAscii(code);
    AsciiIsValid(Itoa(code) + "|" + Human(code));
  }

  lemma NumeralIsAscii(code: int)
    ensures Ascii(Itoa(code))
  {
    hide Format;
  }

  lemma HumanIsAscii(code: int)
    ensures Ascii(Human(code))
  {
    hide Human;
    if code < 4002 {
      RefusalsAreAscii(code);
    } else if code < 4004 {
      MessagesAreAscii(code);
    } else if code < 4007 {
      LimitsAreAscii(code);
    } else if code < 4009 {
      ShutdownIsAscii(code);
    } else {
      OthersAreAscii(code);
    }
  }

  lemma RefusalsAreAscii(code: int)
    requires code < 4002
    ensures Ascii(Human(code))
  {
  }

  lemma MessagesAreAscii(code: int)
    requires 4002 <= code < 4004
    ensures Ascii(Human(code))
  {
  }

  lemma LimitsAreAscii(code: int)
    requires 4004 <= code < 4007
    ensures Ascii(Human(code))
  {
  }

  lemma ShutdownIsAscii(code: int)
    requires 4007 <= code < 4009
    ensures Ascii(Human(code))
  {
  }

  lemma OthersAreAscii(code: int)
    requires 4009 <= code
    ensures Ascii(Human(code))
  {
  }

  lemma HumanIsShort(code: int)
    ensures |Human(code)| <= 44
  {
  }
}
