/** Folder tokens: a signed, expiring grant of access to one restricted
    folder. A token is the base64url text of the payload "<folder id>.<expiry>"
    (ASCII bytes), a dot, and the base64url text of the payload's
    HMAC-SHA256 under the server secret. The keyed hash is a parameter
    `mac`, and the current time (whole seconds) a parameter `now`. */
module Token {
  import opened Common
  import opened Decimal
  import opened Base64Url

  /** HMAC-SHA256 as a function of key and message. */
  type Mac = (seq<byte>, seq<byte>) -> seq<byte>

  /** Why a token is refused; the server only reports "not authorised". */
  datatype Reason = Malformed | BadSignature | WrongFolder | Expired

  datatype Verdict = Accepted | Rejected(reason: Reason)

  const SecondsPerHour: int := 3600

  predicate IsAscii(s: string) {
    forall i | 0 <= i < |s| :: s[i] as int < 128
  }

  /** `s.encode("utf-8")` for ASCII text. */
  function AsciiBytes(s: string): (b: seq<byte>)
    requires IsAscii(s)
    ensures |b| == |s|
  {
    seq(|s|, i requires 0 <= i < |s| => s[i] as int)
  }

  /** `b.decode("utf-8")` on ASCII bytes; `None` for any byte above 127. */
  function DecodeAscii(b: seq<byte>): (r: Option<string>)
    ensures r.Some? ==> |r.value| == |b| && IsAscii(r.value)
  {
    if forall i | 0 <= i < |b| :: b[i] < 128 then Some(seq(|b|, i requires 0 <= i < |b| => b[i] as char))
    else None
  }

  lemma DecodeAsciiBytes(s: string)
    requires IsAscii(s)
    ensures DecodeAscii(AsciiBytes(s)) == Some(s)
  {
    var b := AsciiBytes(s);
    assert forall i | 0 <= i < |b| :: b[i] < 128;
    assert seq(|b|, i requires 0 <= i < |b| => b[i] as char) == s;
  }

  /** The payload text of a token for `folderId` expiring at `exp`. */
  function PayloadText(folderId: int, exp: int): (t: string)
    ensures IsAscii(t)
  {
    ParseIntToString(folderId);
    ParseIntToString(exp);
    IntToString(folderId) + "." + IntToString(exp)
  }

  /** The expiry of a token issued at `now` for `hours` hours. */
  function Expiry(now: int, hours: int): int {
    now + hours * SecondsPerHour
  }

  /** `make_folder_token(folder_id, hours)` at time `now` under `key`. */
  function MakeFolderToken(folderId: int, hours: int, now: int, key: seq<byte>, mac: Mac): string {
    var payload := AsciiBytes(PayloadText(folderId, Expiry(now, hours)));
    B64Url(payload) + "." + B64Url(mac(key, payload))
  }

  /** The checks on the payload text of a correctly signed token: its folder
      id first, then its expiry. */
  function CheckClaims(text: string, folderId: int, now: int): Verdict {
    match SplitOnce(text, '.')
    case None => Rejected(Malformed)
    case Some((fidText, expText)) =>
      match ParseInt(fidText)
      case None => Rejected(Malformed)
      case Some(fid) =>
        if fid != folderId then Rejected(WrongFolder)
        else
          match ParseInt(expText)
          case None => Rejected(Malformed)
          case Some(exp) => if exp < now then Rejected(Expired) else Accepted
  }

  /** The checks of `verify_folder_token`, in the order the server makes them;
      every exception the server swallows is `Malformed`. */
  function CheckFolderToken(token: string, folderId: int, now: int, key: seq<byte>, mac: Mac): Verdict {
    match SplitOnce(token, '.')
    case None => Rejected(Malformed)
    case Some((payloadText, sigText)) =>
      match Unb64Url(payloadText)
      case None => Rejected(Malformed)
      case Some(payload) =>
        match Unb64Url(sigText)
        case None => Rejected(Malformed)
        case Some(sig) =>
          if sig != mac(key, payload) then Rejected(BadSignature)
          else
            match DecodeAscii(payload)
            case None => Rejected(Malformed)
            case Some(text) => CheckClaims(text, folderId, now)
  }

  /** `verify_folder_token(token, folder_id)`. */
  predicate VerifyFolderToken(token: string, folderId: int, now: int, key: seq<byte>, mac: Mac) {
    CheckFolderToken(token, folderId, now, key, mac) == Accepted
  }

  // ---------------------------------------------------------------------
  // Properties

  /** How an issued token comes apart again: its two halves decode to the
      payload and its signature, and the payload text to the folder id and
      the expiry. */
  lemma IssuedTokenParts(folderId: int, hours: int, now: int, key: seq<byte>, mac: Mac)
    ensures var text := PayloadText(folderId, Expiry(now, hours));
            var payload := AsciiBytes(text);
            && SplitOnce(MakeFolderToken(folderId, hours, now, key, mac), '.')
                 == Some((B64Url(payload), B64Url(mac(key, payload))))
            && Unb64Url(B64Url(payload)) == Some(payload)
            && Unb64Url(B64Url(mac(key, payload))) == Some(mac(key, payload))
            && DecodeAscii(payload) == Some(text)
            && SplitOnce(text, '.') == Some((IntToString(folderId), IntToString(Expiry(now, hours))))
            && ParseInt(IntToString(folderId)) == Some(folderId)
            && ParseInt(IntToString(Expiry(now, hours))) == Some(Expiry(now, hours))
  {
    var exp := Expiry(now, hours);
    var text := PayloadText(folderId, exp);
    var payload := AsciiBytes(text);
    RoundTrip(payload);
    RoundTrip(mac(key, payload));
    SplitOnceAt(B64Url(payload), '.', B64Url(mac(key, payload)));
    DecodeAsciiBytes(text);
    ParseIntToString(folderId);
    ParseIntToString(exp);
    SplitOnceAt(IntToString(folderId), '.', IntToString(exp));
  }

  /** A token issued for a folder is accepted for that folder under the same
      key at every time up to and including its expiry. */
  lemma IssuedTokenVerifies(folderId: int, hours: int, issued: int, now: int, key: seq<byte>, mac: Mac)
    requires now <= Expiry(issued, hours)
    ensures VerifyFolderToken(MakeFolderToken(folderId, hours, issued, key, mac), folderId, now, key, mac)
  {
    IssuedTokenParts(folderId, hours, issued, key, mac);
  }

  /** After its expiry the token is refused as expired. */
  lemma IssuedTokenExpires(folderId: int, hours: int, issued: int, now: int, key: seq<byte>, mac: Mac)
    requires now > Expiry(issued, hours)
    ensures CheckFolderToken(MakeFolderToken(folderId, hours, issued, key, mac), folderId, now, key, mac)
            == Rejected(Expired)
  {
    IssuedTokenParts(folderId, hours, issued, key, mac);
  }

  /** A token never opens a folder other than the one it was issued for,
      whatever the time. */
  lemma IssuedTokenBoundToFolder(folderId: int, other: int, hours: int, issued: int, now: int,
                                 key: seq<byte>, mac: Mac)
    requires other != folderId
    ensures CheckFolderToken(MakeFolderToken(folderId, hours, issued, key, mac), other, now, key, mac)
            == Rejected(WrongFolder)
  {
    IssuedTokenParts(folderId, hours, issued, key, mac);
  }

  /** A token signed under another key is refused, as long as the two keys
      give different signatures of its payload. */
  lemma OtherKeyRejected(folderId: int, hours: int, issued: int, now: int,
                         key: seq<byte>, otherKey: seq<byte>, mac: Mac)
    requires var payload := AsciiBytes(PayloadText(folderId, Expiry(issued, hours)));
             mac(otherKey, payload) != mac(key, payload)
    ensures CheckFolderToken(MakeFolderToken(folderId, hours, issued, otherKey, mac), folderId, now, key, mac)
            == Rejected(BadSignature)
  {
    IssuedTokenParts(folderId, hours, issued, otherKey, mac);
  }

  /** Extending the validity by editing the payload and keeping the old
      signature does not work: the signature no longer matches. */
  lemma ReplayedSignatureRejected(payload: seq<byte>, forged: seq<byte>, folderId: int, now: int,
                                  key: seq<byte>, mac: Mac)
    requires mac(key, forged) != mac(key, payload)
    ensures CheckFolderToken(B64Url(forged) + "." + B64Url(mac(key, payload)), folderId, now, key, mac)
            == Rejected(BadSignature)
  {
    RoundTrip(forged);
    RoundTrip(mac(key, payload));
    SplitOnceAt(B64Url(forged), '.', B64Url(mac(key, payload)));
  }

  /** Text without a dot is not a token. */
  lemma NoDotMalformed(token: string, folderId: int, now: int, key: seq<byte>, mac: Mac)
    requires '.' !in token
    ensures CheckFolderToken(token, folderId, now, key, mac) == Rejected(Malformed)
  {
  }

  /** What accepted claims guarantee: the text names the folder, and an
      expiry that has not passed. */
  lemma AcceptedClaims(text: string, folderId: int, now: int)
    requires CheckClaims(text, folderId, now) == Accepted
    ensures SplitOnce(text, '.').Some?
    ensures ParseInt(SplitOnce(text, '.').value.0) == Some(folderId)
    ensures ParseInt(SplitOnce(text, '.').value.1).Some?
    ensures ParseInt(SplitOnce(text, '.').value.1).value >= now
  {
  }

  /** What acceptance guarantees: the token's first half decodes to an
      ASCII payload whose signature under `key` is the second half, and
      whose claims hold for this folder at this time. */
  lemma AcceptedIsSigned(token: string, folderId: int, now: int, key: seq<byte>, mac: Mac)
    requires VerifyFolderToken(token, folderId, now, key, mac)
    ensures SplitOnce(token, '.').Some?
    ensures var (p, s) := SplitOnce(token, '.').value;
            && Unb64Url(p).Some?
            && Unb64Url(s) == Some(mac(key, Unb64Url(p).value))
            && DecodeAscii(Unb64Url(p).value).Some?
            && CheckClaims(DecodeAscii(Unb64Url(p).value).value, folderId, now) == Accepted
  {
  }
}
