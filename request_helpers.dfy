/**
 * The request helpers that the comment and like routes each define
 * identically: the client address from `x-forwarded-for`, the lowercase hex
 * rendering of a SHA-256 digest (Base16 of section 8 of RFC 4648, in lower
 * case), and the comment route's link detector.
 */
module RequestHelpers {
  import opened Wrappers
  import opened Strings

  newtype byte = x: int | 0 <= x < 256

  /** Each part trimmed. */
  function TrimAll(parts: seq<string>): (r: seq<string>)
    ensures |r| == |parts|
    ensures forall i | 0 <= i < |parts| :: r[i] == Trim(parts[i])
  {
    seq(|parts|, i requires 0 <= i < |parts| => Trim(parts[i]))
  }

  /** The trimmed comma-separated parts of a header value. */
  function IpParts(xff: string): (r: seq<string>)
    ensures |r| == |Split(xff, ",")|
    ensures forall i | 0 <= i < |r| :: r[i] == Trim(Split(xff, ",")[i])
  {
    TrimAll(Split(xff, ","))
  }

  /**
   * `firstIp`: `""` for a missing or empty header, else the first non-empty
   * part of `xff.split(",").map(trim).filter(Boolean)`, else `""`.
   */
  function FirstIp(xff: Option<string>): (r: string)
    ensures xff == None || xff == Some("") ==> r == ""
  {
    if xff.None? || xff.value == "" then ""
    else
      var kept := NonEmpty(IpParts(xff.value));
      if |kept| > 0 then kept[0] else ""
  }

  /** The first element of the non-empty filter is the first non-empty element. */
  lemma {:induction false} NonEmptyHead(parts: seq<string>, i: int)
    requires 0 <= i < |parts| && parts[i] != ""
    requires forall j | 0 <= j < i :: parts[j] == ""
    ensures |NonEmpty(parts)| > 0 && NonEmpty(parts)[0] == parts[i]
  {
    if i > 0 {
      NonEmptyHead(parts[1..], i - 1);
    }
  }

  /** Only empty elements: the filter is empty. */
  lemma {:induction false} NonEmptyOfBlanks(parts: seq<string>)
    requires forall j | 0 <= j < |parts| :: parts[j] == ""
    ensures NonEmpty(parts) == []
  {
    if parts != [] {
      NonEmptyOfBlanks(parts[1..]);
    }
  }

  /**
   * The address is the first comma-separated part of a non-empty header
   * that is not blank, trimmed; when every part is blank it is `""`.
   */
  lemma FirstIpIsFirstPart(xff: string, i: int)
    requires xff != ""
    requires 0 <= i < |Split(xff, ",")| && Trim(Split(xff, ",")[i]) != ""
    requires forall j | 0 <= j < i :: Trim(Split(xff, ",")[j]) == ""
    ensures FirstIp(Some(xff)) == Trim(Split(xff, ",")[i])
  {
    NonEmptyHead(IpParts(xff), i);
  }

  lemma FirstIpOfBlankParts(xff: string)
    requires forall j | 0 <= j < |Split(xff, ",")| :: Trim(Split(xff, ",")[j]) == ""
    ensures FirstIp(Some(xff)) == ""
  {
    NonEmptyOfBlanks(IpParts(xff));
  }

  /** No trimmed part of a header holds a comma. */
  lemma IpPartsCommaFree(xff: string)
    ensures forall q | q in IpParts(xff) :: ',' !in q
  {
    var parts := Split(xff, ",");
    SplitPartsAvoidSeparator(xff, ',');
    forall i | 0 <= i < |parts| ensures ',' !in Trim(parts[i]) {
      assert parts[i] in parts;
    }
  }

  /** The address never holds a comma and never starts or ends with white space. */
  lemma FirstIpShape(xff: Option<string>)
    ensures ',' !in FirstIp(xff)
    ensures FirstIp(xff) == [] || (!IsSpace(FirstIp(xff)[0]) && !IsSpace(FirstIp(xff)[|FirstIp(xff)| - 1]))
  {
    if xff.Some? && xff.value != "" {
      var kept := NonEmpty(IpParts(xff.value));
      if |kept| > 0 {
        IpPartsCommaFree(xff.value);
        assert kept[0] in IpParts(xff.value);
        var i :| 0 <= i < |IpParts(xff.value)| && kept[0] == IpParts(xff.value)[i];
      }
    }
  }

  /** A lowercase hexadecimal digit. */
  predicate IsHexDigit(c: char) {
    '0' <= c <= '9' || 'a' <= c <= 'f'
  }

  function HexDigit(d: nat): (c: char)
    requires d < 16
    ensures IsHexDigit(c)
  {
    if d < 10 then DigitChar(d) else (d - 10 + 'a' as int) as char
  }

  /** The value of a lowercase hexadecimal digit. */
  function HexValue(c: char): (d: nat)
    requires IsHexDigit(c)
    ensures d < 16 && HexDigit(d) == c
  {
    if c <= '9' then c as int - '0' as int else c as int - 'a' as int + 10
  }

  /** `b.toString(16)`: one digit below 16, two from 16 on. */
  function ToHex(b: byte): (r: string)
    ensures |r| == if b < 16 then 1 else 2
  {
    if b < 16 then [HexDigit(b as nat)] else [HexDigit(b as nat / 16), HexDigit(b as nat % 16)]
  }

  /** `s.padStart(2, "0")` */
  function PadStart2(s: string): string {
    if |s| < 2 then seq(2 - |s|, _ => '0') + s else s
  }

  /** One byte as the loop writes it: two lowercase hex digits, high nibble first. */
  function ByteHex(b: byte): (r: string)
    ensures |r| == 2 && IsHexDigit(r[0]) && IsHexDigit(r[1])
    ensures HexValue(r[0]) * 16 + HexValue(r[1]) == b as int
  {
    PadStart2(ToHex(b))
  }

  /** The hex text of a byte string: two digits per byte, in order. */
  function HexEncode(bytes: seq<byte>): (r: string)
    ensures |r| == 2 * |bytes|
    ensures forall i | 0 <= i < |r| :: IsHexDigit(r[i])
  {
    if bytes == [] then "" else ByteHex(bytes[0]) + HexEncode(bytes[1..])
  }

  /** Reading hex text back, two digits per byte. */
  function HexDecode(s: string): seq<byte>
    requires |s| % 2 == 0
    requires forall i | 0 <= i < |s| :: IsHexDigit(s[i])
  {
    if s == [] then []
    else [(HexValue(s[0]) * 16 + HexValue(s[1])) as byte] + HexDecode(s[2..])
  }

  /** The hex text loses nothing: decoding it gives the digest back. */
  lemma {:induction false} HexRoundTrip(bytes: seq<byte>)
    ensures HexDecode(HexEncode(bytes)) == bytes
  {
    if bytes != [] {
      HexRoundTrip(bytes[1..]);
      var s := HexEncode(bytes);
      assert s[2..] == HexEncode(bytes[1..]);
    }
  }

  lemma {:induction false} HexEncodeAppend(bytes: seq<byte>, b: byte)
    ensures HexEncode(bytes + [b]) == HexEncode(bytes) + ByteHex(b)
  {
    if bytes == [] {
      assert HexEncode([b]) == ByteHex(b) + HexEncode([]);
    } else {
      assert (bytes + [b])[1..] == bytes[1..] + [b];
      HexEncodeAppend(bytes[1..], b);
    }
  }

  /**
   * `sha256Hex`: the digest of the input is computed by the platform and is
   * given here; `None` stands for a digest that throws, which gives `""`.
   * Otherwise the loop appends two hex digits per digest byte.
   */
  method Sha256Hex(digest: Option<seq<byte>>) returns (hex: string)
    ensures digest.None? ==> hex == ""
    ensures digest.Some? ==> hex == HexEncode(digest.value) && |hex| == 2 * |digest.value|
  {
    if digest.None? {
      return "";
    }
    var bytes := digest.value;
    hex := "";
    for i := 0 to |bytes|
      invariant hex == HexEncode(bytes[..i])
    {
      HexEncodeAppend(bytes[..i], bytes[i]);
      assert bytes[..i + 1] == bytes[..i] + [bytes[i]];
      hex := hex + ByteHex(bytes[i]);
    }
    assert bytes[..|bytes|] == bytes;
  }

  /** The alternatives of `/(https?:\/\/|www\.|\.com|\.net|\.org|\.io)/i`. */
  const UrlMarkers: seq<string> := ["http://", "https://", "www.", ".com", ".net", ".org", ".io"]

  /**
   * `hasUrl`: some alternative occurs in the text, letters compared without
   * regard to case. Every alternative holds a `.` or a `:`, so a text with
   * neither is never flagged.
   */
  function HasUrl(text: string): (r: bool)
    ensures r ==> exists i | 0 <= i < |text| :: text[i] == '.' || text[i] == ':'
  {
    var t := Lower(text);
    var r := exists k | 0 <= k < |UrlMarkers| :: Contains(t, UrlMarkers[k]);
    assert r ==> exists i | 0 <= i < |text| :: text[i] == '.' || text[i] == ':' by {
      if forall i | 0 <= i < |text| :: text[i] != '.' && text[i] != ':' {
        forall k, i | 0 <= k < |UrlMarkers| && 0 <= i <= |t| - |UrlMarkers[k]| ensures !OccursAt(t, UrlMarkers[k], i) {
          var m := UrlMarkers[k];
          var p := if k == 0 then 4 else if k == 1 then 5 else if k == 2 then 3 else 0;
          assert m[p] == '.' || m[p] == ':';
          assert t[i + p] == LowerChar(text[i + p]);
          assert t[i..i + |m|][p] != m[p];
        }
      }
    }
    r
  }

  lemma LowerAppend(a: string, b: string)
    ensures Lower(a + b) == Lower(a) + Lower(b)
  {
    assert forall i | 0 <= i < |a + b| :: Lower(a + b)[i] == (Lower(a) + Lower(b))[i];
  }

  /** A link marker written in any case anywhere in the text is detected. */
  lemma HasUrlOfEmbedded(a: string, m: string, b: string, k: int)
    requires 0 <= k < |UrlMarkers| && Lower(m) == UrlMarkers[k]
    ensures HasUrl(a + m + b)
  {
    LowerAppend(a + m, b);
    LowerAppend(a, m);
    var t := Lower(a + m + b);
    assert t == Lower(a) + UrlMarkers[k] + Lower(b);
    assert t[|a|..|a| + |UrlMarkers[k]|] == UrlMarkers[k];
    assert OccursAt(t, UrlMarkers[k], |a|);
  }
}
