/** Content-addressed keys of post attachments, and the scan that finds them in post content. */
module AttachmentKeys {
  import opened Common

  type byte = b: int | 0 <= b < 256

  const NAMESPACE := "post-attachments"
  const ROUTE := "/files/"

  predicate IsHex(c: char) { '0' <= c <= '9' || 'a' <= c <= 'f' }

  predicate IsImageExt(ext: string) { ext == "jpg" || ext == "png" || ext == "webp" || ext == "gif" }

  /** `post-attachments/`, 32 hex digits, a dot and one of the four image extensions. */
  predicate IsKey(key: string) {
    && |key| > 50
    && key[..17] == "post-attachments/"
    && (forall i :: 17 <= i < 49 ==> IsHex(key[i]))
    && key[49] == '.'
    && IsImageExt(key[50..])
  }

  ghost predicate OccursAt(text: string, at: int, pattern: string) {
    0 <= at && at + |pattern| <= |text| && text[at..at + |pattern|] == pattern
  }

  ghost predicate Occurs(text: string, pattern: string) {
    exists at :: OccursAt(text, at, pattern)
  }

  // ── The scan ───────────────────────────────────────────────────────────────

  /** The extension found at a position; its first letter decides which one is possible. */
  function ExtAt(text: string, at: nat): (ext: Option<string>)
    ensures ext.Some? ==> IsImageExt(ext.value) && OccursAt(text, at, ext.value)
  {
    if at + 3 <= |text| && text[at..at + 3] == "jpg" then Some("jpg")
    else if at + 3 <= |text| && text[at..at + 3] == "png" then Some("png")
    else if at + 4 <= |text| && text[at..at + 4] == "webp" then Some("webp")
    else if at + 3 <= |text| && text[at..at + 3] == "gif" then Some("gif")
    else None
  }

  /** The key of the attachment URL that starts at a position, if one does. */
  function MatchAt(text: string, at: nat): Option<string> {
    if at + 57 <= |text|
       && text[at..at + 24] == "/files/post-attachments/"
       && (forall i :: at + 24 <= i < at + 56 ==> IsHex(text[i]))
       && text[at + 56] == '.'
    then
      match ExtAt(text, at + 57)
      case None => None
      case Some(ext) => Some(text[at + 7..at + 57 + |ext|])
    else None
  }

  lemma MatchIsKey(text: string, at: nat)
    requires MatchAt(text, at).Some?
    ensures IsKey(MatchAt(text, at).value)
    ensures OccursAt(text, at, ROUTE + MatchAt(text, at).value)
  {
    var key := MatchAt(text, at).value;
    var head, ext := text[at..at + 24], ExtAt(text, at + 57).value;
    MatchIsUrl(text, at);
    assert key[..17] == head[7..] == "post-attachments/";
    assert key[50..] == text[at + 57..at + 57 + |ext|];
  }

  lemma MatchIsUrl(text: string, at: nat)
    requires MatchAt(text, at).Some?
    ensures OccursAt(text, at, ROUTE + MatchAt(text, at).value)
  {
    var key := MatchAt(text, at).value;
    assert text[at..at + 7] == text[at..at + 24][..7] == ROUTE;
    assert text[at..at + 7 + |key|] == text[at..at + 7] + key;
  }

  lemma KeyIsMatched(text: string, at: nat, key: string)
    requires IsKey(key) && OccursAt(text, at, ROUTE + key)
    ensures MatchAt(text, at) == Some(key)
  {
    KeyIsThere(text, at, key);
    assert text[at + 57..at + 7 + |key|] == text[at + 7..at + 7 + |key|][50..] == key[50..];
    ExtIsFound(text, at + 57, key[50..]);
    hide ExtAt;
    assert forall i :: at + 24 <= i < at + 56 ==> text[i] == key[i - at - 7];
  }

  lemma KeyIsThere(text: string, at: nat, key: string)
    requires IsKey(key) && OccursAt(text, at, ROUTE + key)
    ensures text[at..at + 24] == "/files/post-attachments/" && text[at + 7..at + 7 + |key|] == key
    ensures forall i :: 0 <= i < |key| ==> text[at + 7 + i] == key[i]
  {
    var url := text[at..at + 7 + |key|];
    assert text[at + 7..at + 7 + |key|] == url[7..] == key;
    assert text[at..at + 24] == url[..24] == ROUTE + key[..17];
  }

  lemma ExtIsFound(text: string, at: nat, ext: string)
    requires IsImageExt(ext) && OccursAt(text, at, ext)
    ensures ExtAt(text, at) == Some(ext)
  {
    assert text[at..at + |ext|] == ext && text[at] == ext[0];
    var three := text[at..at + 3];
    assert three[0] == text[at];
    assert "jpg"[0] == 'j' && "png"[0] == 'p' && "gif"[0] == 'g' && "webp"[0] == 'w';
    if |ext| == 3 { assert three == ext; } else { assert text[at..at + 4] == ext; }
  }

  /** No `/fi`, with which every URL begins, stands inside an attachment URL. */
  lemma NoUrlStartInside(text: string, at: nat, inside: nat)
    requires MatchAt(text, at).Some? && at < inside < at + 7 + |MatchAt(text, at).value|
    requires inside + 2 < |text|
    ensures text[inside] != '/' || text[inside + 1] != 'f' || text[inside + 2] != 'i'
  {
    var d := inside - at;
    if d < 23 {
      assert text[inside] == text[at..at + 24][d];
      assert text[inside + 1] == text[at..at + 24][d + 1];
    } else if d == 23 {
      assert IsHex(text[at + 25]);
    } else if d < 56 {
      assert IsHex(text[inside]);
    } else if d > 56 {
      assert text[inside] == ExtAt(text, at + 57).value[d - 57];
    }
  }

  /** Attachment URLs never overlap: none starts strictly inside another. */
  lemma NoOverlap(text: string, at: nat, inside: nat)
    requires MatchAt(text, at).Some? && at < inside < at + 7 + |MatchAt(text, at).value|
    ensures MatchAt(text, inside).None?
  {
    if MatchAt(text, inside).Some? {
      assert text[inside] == text[inside..inside + 24][0] == '/';
      assert text[inside + 1] == text[inside..inside + 24][1] == 'f';
      assert text[inside + 2] == text[inside..inside + 24][2] == 'i';
      NoUrlStartInside(text, at, inside);
    }
  }

  /** Every key whose URL starts somewhere in the text. */
  function KeysIn(text: string): set<string> {
    set i | 0 <= i < |text| && MatchAt(text, i).Some? :: MatchAt(text, i).value
  }

  /** The keys found are exactly the well-shaped keys whose URL occurs anywhere in the text. */
  lemma KeysInIff(text: string, key: string)
    ensures key in KeysIn(text) <==> IsKey(key) && Occurs(text, ROUTE + key)
  {
    if key in KeysIn(text) {
      var i :| 0 <= i < |text| && MatchAt(text, i).Some? && MatchAt(text, i).value == key;
      MatchIsKey(text, i);
    }
    if IsKey(key) && Occurs(text, ROUTE + key) {
      var at :| OccursAt(text, at, ROUTE + key);
      KeyIsMatched(text, at, key);
      assert 0 <= at < |text|;
    }
  }

  /** The leftmost non-overlapping scan: after a match it goes on behind the whole match. */
  method ExtractAttachmentKeys(content: string) returns (keys: set<string>)
    ensures keys == KeysIn(content)
  {
    keys := {};
    var i := 0;
    while i < |content|
      invariant keys == set j | 0 <= j < i && j < |content| && MatchAt(content, j).Some? :: MatchAt(content, j).value
      decreases |content| - i
    {
      ghost var from, found := i, keys;
      match MatchAt(content, i) {
        case None => i := i + 1;
        case Some(key) =>
          forall j | from < j < from + 7 + |key| ensures MatchAt(content, j).None? {
            NoOverlap(content, from, j);
          }
          keys := keys + {key};
          i := i + 7 + |key|;
      }
      ghost var upTo := set j | 0 <= j < i && j < |content| && MatchAt(content, j).Some? :: MatchAt(content, j).value;
      forall k ensures k in upTo <==> k in keys {
        if k in upTo {
          var j :| 0 <= j < i && j < |content| && MatchAt(content, j).Some? && MatchAt(content, j).value == k;
          assert j <= from;
        }
        if k in found {
          var j :| 0 <= j < from && j < |content| && MatchAt(content, j).Some? && MatchAt(content, j).value == k;
          assert 0 <= j < i;
        }
      }
    }
  }

  // ── The key of an upload ───────────────────────────────────────────────────

  function HexDigit(n: int): (c: char)
    requires 0 <= n < 16
    ensures IsHex(c)
  {
    "0123456789abcdef"[n]
  }

  function HexEncode(bytes: seq<byte>): (hex: string)
    ensures |hex| == 2 * |bytes| && forall c <- hex :: IsHex(c)
  {
    if bytes == [] then "" else [HexDigit(bytes[0] / 16), HexDigit(bytes[0] % 16)] + HexEncode(bytes[1..])
  }

  predicate ValidImageContentType(contentType: string) {
    contentType == "image/jpeg" || contentType == "image/jpg" || contentType == "image/png"
    || contentType == "image/webp" || contentType == "image/gif"
  }

  function ContentTypeToExt(contentType: string): string {
    if contentType == "image/jpeg" || contentType == "image/jpg" then "jpg"
    else if contentType == "image/png" then "png"
    else if contentType == "image/webp" then "webp"
    else if contentType == "image/gif" then "gif"
    else if contentType == "image/svg+xml" then "svg"
    else if contentType == "image/x-icon" || contentType == "image/vnd.microsoft.icon" then "ico"
    else "bin"
  }

  /** The storage key of some content: namespace, 16 digest bytes in hex, extension. */
  function CasKey(prefix: string, digest: seq<byte>, contentType: string): string
  {
    prefix + "/" + HexEncode(digest) + "." + ContentTypeToExt(contentType)
  }

  /** The key of every accepted upload has the shape the scan looks for. */
  lemma AcceptedUploadIsKey(digest: seq<byte>, contentType: string)
    requires |digest| == 16
    requires ValidImageContentType(contentType)
    ensures IsKey(CasKey(NAMESPACE, digest, contentType))
  {
    var key := CasKey(NAMESPACE, digest, contentType);
    var hex, ext := HexEncode(digest), ContentTypeToExt(contentType);
    assert key == "post-attachments/" + hex + "." + ext;
    assert key[..17] == "post-attachments/";
    forall i | 17 <= i < 49 ensures IsHex(key[i]) {
      assert key[i] == hex[i - 17] && hex[i - 17] in hex;
    }
    assert key[50..] == ext;
  }

  /** So its URL is found wherever it is embedded, whatever surrounds it. */
  lemma UploadedUrlIsFound(digest: seq<byte>, contentType: string, before: string, after: string)
    requires |digest| == 16
    requires ValidImageContentType(contentType)
    ensures var key := CasKey(NAMESPACE, digest, contentType);
            key in KeysIn(before + (ROUTE + key) + after)
  {
    var key := CasKey(NAMESPACE, digest, contentType);
    AcceptedUploadIsKey(digest, contentType);
    var text := before + (ROUTE + key) + after;
    assert OccursAt(text, |before|, ROUTE + key);
    KeysInIff(text, key);
  }

  /** A text that is just one such URL embeds that key and no other. */
  lemma OneUrlOneKey(key: string)
    requires IsKey(key)
    ensures KeysIn(ROUTE + key) == {key}
  {
    var text := ROUTE + key;
    assert OccursAt(text, 0, text);
    KeyIsMatched(text, 0, key);
    forall i | 0 < i < |text| ensures MatchAt(text, i).None? {
      NoOverlap(text, 0, i);
    }
  }

  // ── Different contents, different keys ─────────────────────────────────────

  lemma HexDigitsDiffer(m: int, n: int)
    requires 0 <= m < 16 && 0 <= n < 16
    ensures HexDigit(m) == HexDigit(n) <==> m == n
  {
    assert forall i :: 0 <= i < 10 ==> HexDigit(i) as int == 48 + i;
    assert forall i :: 10 <= i < 16 ==> HexDigit(i) as int == 87 + i;
  }

  lemma {:induction false} HexDiffers(a: seq<byte>, b: seq<byte>)
    requires |a| == |b|
    ensures HexEncode(a) == HexEncode(b) <==> a == b
  {
    if a != [] && HexEncode(a) == HexEncode(b) {
      HexDigitsDiffer(a[0] / 16, b[0] / 16);
      HexDigitsDiffer(a[0] % 16, b[0] % 16);
      assert HexEncode(a)[0] == HexDigit(a[0] / 16) && HexEncode(a)[1] == HexDigit(a[0] % 16);
      assert HexEncode(b)[0] == HexDigit(b[0] / 16) && HexEncode(b)[1] == HexDigit(b[0] % 16);
      assert HexEncode(a)[2..] == HexEncode(a[1..]) && HexEncode(b)[2..] == HexEncode(b[1..]);
      HexDiffers(a[1..], b[1..]);
      assert a == [a[0]] + a[1..] && b == [b[0]] + b[1..];
    }
  }

  predicate IsJpeg(contentType: string) { contentType == "image/jpeg" || contentType == "image/jpg" }

  lemma ExtensionsDiffer(a: string, b: string)
    requires ValidImageContentType(a) && ValidImageContentType(b)
    ensures ContentTypeToExt(a) == ContentTypeToExt(b) <==> a == b || (IsJpeg(a) && IsJpeg(b))
  {
    assert "jpg"[0] == 'j' && "png"[0] == 'p' && "gif"[0] == 'g' && "webp"[0] == 'w';
  }

  /** Two accepted uploads have one key exactly if their digests are equal and so are their types, up
      to the two names of JPEG. */
  lemma KeysEqualIff(d: seq<byte>, a: string, e: seq<byte>, b: string)
    requires |d| == 16 && |e| == 16 && ValidImageContentType(a) && ValidImageContentType(b)
    ensures CasKey(NAMESPACE, d, a) == CasKey(NAMESPACE, e, b) <==> d == e && (a == b || (IsJpeg(a) && IsJpeg(b)))
  {
    KeyParts(d, a);
    KeyParts(e, b);
    HexDiffers(d, e);
    ExtensionsDiffer(a, b);
    hide CasKey, HexEncode, ContentTypeToExt;
  }

  lemma KeyParts(d: seq<byte>, a: string)
    requires |d| == 16
    ensures var key := CasKey(NAMESPACE, d, a);
            |key| >= 50 && key[17..49] == HexEncode(d) && key[50..] == ContentTypeToExt(a)
    ensures CasKey(NAMESPACE, d, a) == NAMESPACE + "/" + HexEncode(d) + "." + ContentTypeToExt(a)
  {
    var key := CasKey(NAMESPACE, d, a);
    assert key == (NAMESPACE + "/") + (HexEncode(d) + ("." + ContentTypeToExt(a)));
  }
}
