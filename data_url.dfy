/**
 * Data URLs as a browser FileReader produces them with readAsDataURL:
 * the `data:` scheme of RFC 2397 (section 3) with a base64 payload encoded
 * as in section 4 of RFC 4648, and the size estimate that the image helper
 * derives from such a URL's text.
 */
module DataUrls {
  import opened Wrappers

  /** One octet of a file or blob. */
  type Byte = b: int | 0 <= b < 256

  /** The characters of the base64 alphabet (RFC 4648, Table 1) and the pad character. */
  predicate IsBase64Char(c: char) {
    ('A' <= c <= 'Z') || ('a' <= c <= 'z') || ('0' <= c <= '9') || c == '+' || c == '/' || c == '='
  }

  /** The base64 digit for a 6-bit value. */
  function Digit(k: int): (c: char)
    requires 0 <= k < 64
    ensures IsBase64Char(c) && c != '='
  {
    if k < 26 then ('A' as int + k) as char
    else if k < 52 then ('a' as int + (k - 26)) as char
    else if k < 62 then ('0' as int + (k - 52)) as char
    else if k == 62 then '+'
    else '/'
  }

  /** Four characters of base64 text. */
  predicate IsQuantum(r: string) {
    |r| == 4 && IsBase64Char(r[0]) && IsBase64Char(r[1]) && IsBase64Char(r[2]) && IsBase64Char(r[3])
  }

  /** Three octets as four digits. */
  function Quantum(b0: Byte, b1: Byte, b2: Byte): (r: string)
    ensures IsQuantum(r)
  {
    var n := b0 as int * 65536 + b1 as int * 256 + b2 as int;
    [Digit(n / 262144), Digit(n / 4096 % 64), Digit(n / 64 % 64), Digit(n % 64)]
  }

  /** A final single octet: two digits and two pad characters. */
  function FinalOne(b0: Byte): (r: string)
    ensures IsQuantum(r)
  {
    [Digit(b0 as int / 4), Digit(b0 as int % 4 * 16), '=', '=']
  }

  /** Two final octets: three digits and one pad character. */
  function FinalTwo(b0: Byte, b1: Byte): (r: string)
    ensures IsQuantum(r)
  {
    var n := b0 as int * 256 + b1 as int;
    [Digit(n / 1024), Digit(n / 16 % 64), Digit(n % 16 * 4), '=']
  }

  /** Base64 encoding with padding (RFC 4648, section 4). */
  function Base64(s: seq<Byte>): (r: string)
    ensures |r| == 4 * ((|s| + 2) / 3)
    ensures forall i :: 0 <= i < |r| ==> IsBase64Char(r[i])
    decreases |s|
  {
    if |s| == 0 then ""
    else if |s| == 1 then FinalOne(s[0])
    else if |s| == 2 then FinalTwo(s[0], s[1])
    else
      var q, rest := Quantum(s[0], s[1], s[2]), Base64(s[3..]);
      QuantaStep(|s|);
      assert forall i :: 4 <= i < 4 + |rest| ==> (q + rest)[i] == rest[i - 4];
      q + rest
  }

  /** Three more octets take one more quantum. */
  lemma QuantaStep(n: nat)
    requires n >= 3
    ensures (n + 2) / 3 == (n - 3 + 2) / 3 + 1
  {
  }

  /** What readAsDataURL yields for a file or blob: its media type and its bytes. */
  datatype DataUrl = DataUrl(mediaType: string, data: seq<Byte>)

  /** The text of a data URL: `data:<mediatype>;base64,<payload>`. */
  function Text(u: DataUrl): (t: string)
    ensures "data:" <= t
    ensures |t| == 13 + |u.mediaType| + 4 * ((|u.data| + 2) / 3)
  {
    "data:" + u.mediaType + ";base64," + Base64(u.data)
  }

  /** First position of `c` in `s`, as String.prototype.indexOf. */
  function IndexOf(s: string, c: char): (r: Option<nat>)
    ensures r.None? ==> forall i :: 0 <= i < |s| ==> s[i] != c
    ensures r.Some? ==> r.value < |s| && s[r.value] == c
    ensures r.Some? ==> forall i :: 0 <= i < r.value ==> s[i] != c
  {
    if |s| == 0 then None
    else if s[0] == c then Some(0)
    else
      match IndexOf(s[1..], c)
      case None => None
      case Some(i) => Some(i + 1)
  }

  /** `s.split(',')[1]`: the text between the first and the second comma
      (or the end), absent when `s` has no comma. */
  function SecondField(s: string): (r: Option<string>)
    ensures r.None? <==> forall i :: 0 <= i < |s| ==> s[i] != ','
    ensures r.Some? ==> forall i :: 0 <= i < |r.value| ==> r.value[i] != ','
    ensures r.Some? ==> |r.value| < |s|
    ensures r.Some? <==> IndexOf(s, ',').Some?
    ensures r.Some? ==>
      var i, n := IndexOf(s, ',').value, |r.value|;
      && i + 1 + n <= |s|
      && r.value == s[i + 1..i + 1 + n]
      && (i + 1 + n == |s| || s[i + 1 + n] == ',')
  {
    match IndexOf(s, ',')
    case None => None
    case Some(i) =>
      var rest := s[i + 1..];
      match IndexOf(rest, ',')
      case None => Some(rest)
      case Some(j) => Some(rest[..j])
  }

  /** compressedSize in compressAndConvertImage: three quarters of the
      payload length, floored; 0 when there is no payload field. */
  function SizeEstimate(s: string): (n: nat)
    ensures n <= |s|
  {
    match SecondField(s)
    case None => 0
    case Some(f) => (0.75 * |f| as real).Floor
  }

  /** Within a string, the first comma after a comma-free prefix is the one ending it. */
  lemma {:induction false} IndexOfAfterCommaFreePrefix(a: string, b: string)
    requires forall i :: 0 <= i < |a| ==> a[i] != ','
    ensures IndexOf(a + "," + b, ',') == Some(|a|)
  {
    var t := a + "," + b;
    assert t[|a|] == ',';
    var r := IndexOf(t, ',');
    assert r.Some?;
  }

  /** For a data URL whose media type has no comma, the second comma-separated
      field of its text is the whole base64 payload. */
  lemma PayloadIsSecondField(u: DataUrl)
    requires forall i :: 0 <= i < |u.mediaType| ==> u.mediaType[i] != ','
    ensures SecondField(Text(u)) == Some(Base64(u.data))
  {
    var head := "data:" + u.mediaType + ";base64";
    var payload := Base64(u.data);
    assert forall i :: 0 <= i < |head| ==> head[i] != ',' by {
      forall i | 0 <= i < |head| ensures head[i] != ',' {
        if 5 <= i < 5 + |u.mediaType| { assert head[i] == u.mediaType[i - 5]; }
      }
    }
    assert Text(u) == head + "," + payload;
    IndexOfAfterCommaFreePrefix(head, payload);
    assert Text(u)[|head| + 1..] == payload;
    assert IndexOf(payload, ',') == None;
  }

  /** For a data URL whose media type has no comma, the estimate recovers the
      byte length up to base64 padding: 3 bytes per 4 payload characters. */
  lemma EstimateOfDataUrl(u: DataUrl)
    requires forall i :: 0 <= i < |u.mediaType| ==> u.mediaType[i] != ','
    ensures SizeEstimate(Text(u)) == 3 * ((|u.data| + 2) / 3)
    ensures |u.data| <= SizeEstimate(Text(u)) <= |u.data| + 2
  {
    PayloadIsSecondField(u);
    var k := (|u.data| + 2) / 3;
    assert |Base64(u.data)| == 4 * k;
    assert 0.75 * (4 * k) as real == (3 * k) as real;
  }
}
