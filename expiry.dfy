/**
 * Reading an access token's expiry and deciding when to renew it:
 * `getTokenExpiry` and the scheduling decision of `startTokenRefreshTimer`
 * in src/services/api.js.
 */
module Expiry {
  import opened Wrappers
  import opened Text
  import Base64

  /** Renew one minute before the token expires (milliseconds). */
  const RefreshMargin: int := 60 * 1000

  /** `s.split(sep)` for a one-character separator. */
  function Split(s: string, sep: char): (parts: seq<string>)
    ensures |parts| >= 1
    ensures forall k :: 0 <= k < |parts| ==> sep !in parts[k]
    decreases |s|
  {
    if s == [] then [""]
    else if s[0] == sep then [""] + Split(s[1..], sep)
    else
      var rest := Split(s[1..], sep);
      [[s[0]] + rest[0]] + rest[1..]
  }

  /** `parts.join(sep)`. */
  function Join(parts: seq<string>, sep: char): string
    requires |parts| >= 1
    decreases |parts|
  {
    if |parts| == 1 then parts[0] else parts[0] + [sep] + Join(parts[1..], sep)
  }

  lemma JoinConsFirst(x: string, parts: seq<string>, sep: char)
    requires |parts| >= 1
    ensures Join([x + parts[0]] + parts[1..], sep) == x + Join(parts, sep)
  {
    var q := [x + parts[0]] + parts[1..];
    if |parts| > 1 {
      assert q[1..] == parts[1..];
    }
  }

  /** Joining the pieces of a split gives back the string. */
  lemma {:induction false} JoinSplit(s: string, sep: char)
    ensures Join(Split(s, sep), sep) == s
    decreases |s|
  {
    if s != [] {
      JoinSplit(s[1..], sep);
      var rest := Split(s[1..], sep);
      if s[0] == sep {
        assert ([""] + rest)[1..] == rest;
        assert s == [sep] + s[1..];
      } else {
        JoinConsFirst([s[0]], rest, sep);
        assert s == [s[0]] + s[1..];
      }
    }
  }

  /** A leading piece free of the separator splits off as the first part. */
  lemma {:induction false} SplitLeading(a: string, rest: string, sep: char)
    requires sep !in a
    ensures Split(a + [sep] + rest, sep) == [a] + Split(rest, sep)
    decreases |a|
  {
    var s := a + [sep] + rest;
    if a == [] {
      assert s[1..] == rest;
    } else {
      SplitLeading(a[1..], rest, sep);
      assert s[1..] == a[1..] + [sep] + rest;
      assert [a[0]] + a[1..] == a;
    }
  }

  /** A string free of the separator is one part. */
  lemma {:induction false} SplitWhole(a: string, sep: char)
    requires sep !in a
    ensures Split(a, sep) == [a]
    decreases |a|
  {
    if a != [] {
      SplitWhole(a[1..], sep);
      assert [a[0]] + a[1..] == a;
    }
  }

  /** Splitting a join gives back the parts when none holds the separator. */
  lemma {:induction false} SplitJoin(parts: seq<string>, sep: char)
    requires |parts| >= 1
    requires forall k :: 0 <= k < |parts| ==> sep !in parts[k]
    ensures Split(Join(parts, sep), sep) == parts
    decreases |parts|
  {
    if |parts| == 1 {
      SplitWhole(parts[0], sep);
    } else {
      SplitJoin(parts[1..], sep);
      SplitLeading(parts[0], Join(parts[1..], sep), sep);
      assert [parts[0]] + parts[1..] == parts;
    }
  }

  /** `token.split('.')[1]` as `atob` receives it: a token without a dot has no
    * second segment and `atob(undefined)` decodes the text "undefined". */
  function PayloadSegment(token: string): (segment: string)
    ensures '.' in token ==> |Split(token, '.')| >= 2 && segment == Split(token, '.')[1]
    ensures '.' !in token ==> segment == "undefined"
    ensures '.' !in segment
  {
    var parts := Split(token, '.');
    assert '.' !in token <==> |parts| == 1 by {
      JoinSplit(token, '.');
      if '.' !in token {
        SplitWhole(token, '.');
      }
      if |parts| == 1 {
        assert Join(parts, '.') == parts[0];
      }
    }
    if |parts| >= 2 then parts[1] else "undefined"
  }

  /** `JSON.parse` of the decoded payload followed by reading `payload.exp`
    * (seconds); `None` where parsing throws or `exp` is not a number. */
  type ExpClaim = seq<Base64.Byte> -> Option<int>

  /** `getTokenExpiry`: the expiry in milliseconds, `None` where the source returns null.
    * There is an expiry exactly when the payload segment decodes and its `exp` reads as a
    * number, and it is that many seconds, in whole milliseconds. */
  function TokenExpiry(token: string, claim: ExpClaim): (expiry: Option<int>)
    ensures var payload := Base64.Atob(PayloadSegment(token));
      expiry.Some? <==> payload.Some? && claim(payload.value).Some?
    ensures var payload := Base64.Atob(PayloadSegment(token));
      expiry.Some? ==> expiry.value == claim(payload.value).value * 1000 && expiry.value % 1000 == 0
  {
    match Base64.Atob(PayloadSegment(token))
    case None => None
    case Some(payload) =>
      match claim(payload)
      case None => None
      case Some(exp) => Some(exp * 1000)
  }

  lemma UndefinedSegmentRejected(s: string)
    requires s == "undefined"
    ensures Base64.Atob(s) == None
  {
    assert |s| == 9;
    LettersRemainderOneRejected(s);
  }

  /** Lower-case letters only, with remainder 1 modulo 4: nothing is stripped and the length is refused. */
  lemma LettersRemainderOneRejected(s: string)
    requires forall i :: 0 <= i < |s| ==> 'a' <= s[i] <= 'z'
    requires |s| % 4 == 1
    ensures Base64.Atob(s) == None
  {
    Base64.StripWhitespaceKeeps(s);
    Base64.RemainderOneRejected(s);
  }

  /** A token without a dot has no expiry. */
  lemma NoDotNoExpiry(token: string, claim: ExpClaim)
    requires '.' !in token
    ensures TokenExpiry(token, claim) == None
  {
    SplitWhole(token, '.');
    UndefinedSegmentRejected(PayloadSegment(token));
  }

  /** A payload segment written in base64url (holding `-` or `_`) has no expiry,
    * whatever it encodes. */
  lemma UrlSafePayloadNoExpiry(token: string, claim: ExpClaim, i: nat)
    requires i < |PayloadSegment(token)|
    requires PayloadSegment(token)[i] == '-' || PayloadSegment(token)[i] == '_'
    ensures TokenExpiry(token, claim) == None
  {
    Base64.UrlSafeCharacterRejected(PayloadSegment(token), i);
  }

  /** A token `header.payload.signature` whose payload is standard base64 of the
    * bytes `json` carries exactly the `exp` those bytes hold, in milliseconds. */
  lemma StandardPayloadExpiry(header: string, json: seq<Base64.Byte>, signature: string, claim: ExpClaim)
    requires '.' !in header && '.' !in signature
    ensures TokenExpiry(header + "." + Base64.Btoa(json) + "." + signature, claim)
         == (match claim(json) case None => None case Some(exp) => Some(exp * 1000))
  {
    var payload := Base64.Btoa(json);
    assert '.' !in payload by {
      Base64.BtoaShape(json);
      Base64.NormalizeEncoded(json);
      if '.' in payload {
        var k :| 0 <= k < |payload| && payload[k] == '.';
        assert !Base64.IsAsciiWhitespace(payload[k]);
        PayloadCharsAreBase64(json, k);
      }
    }
    var token := header + "." + payload + "." + signature;
    assert token == header + ['.'] + (payload + ['.'] + signature);
    SplitLeading(header, payload + ['.'] + signature, '.');
    SplitLeading(payload, signature, '.');
    Base64.BtoaRoundTrip(json);
  }

  lemma PayloadCharsAreBase64(json: seq<Base64.Byte>, k: nat)
    requires k < |Base64.Btoa(json)|
    ensures Base64.Btoa(json)[k] != '.'
  {
    var body := Base64.Chars(Base64.EncodeSextets(json));
    if k < |body| {
      assert Base64.Btoa(json)[k] == body[k];
      assert Base64.IsAlphabetChar(body[k]);
    }
  }

  /** The first delay `setTimeout` cannot wait: 2^31 milliseconds, about 24.8 days. */
  const MaxTimeout: int := 0x8000_0000

  /** The delay `setTimeout(callback, delay)` actually waits.  WebIDL converts the argument
    * to a 32-bit signed `long` (modulo 2^32), and the HTML timer steps treat a negative
    * result as 0: a delay whose remainder modulo 2^32 is below 2^31 waits that remainder,
    * any other fires at once. */
  function TimeoutDelay(delay: int): (waited: int)
    ensures 0 <= waited < MaxTimeout
    ensures 0 <= delay < MaxTimeout ==> waited == delay
    ensures MaxTimeout <= delay < 2 * MaxTimeout ==> waited == 0
    ensures waited != 0 ==> (delay - waited) % (2 * MaxTimeout) == 0
    ensures (delay - waited) % (2 * MaxTimeout) == 0 <==> delay % (2 * MaxTimeout) < MaxTimeout
  {
    var wrapped := delay % (2 * MaxTimeout);
    if wrapped < MaxTimeout then wrapped else 0
  }

  /** What `startTokenRefreshTimer` does once the previous timer is cleared. */
  datatype TimerPlan =
    | NoTimer             // no token, or no usable expiry: nothing is armed
    | RefreshNow          // already inside the margin: refresh at once, arm nothing
    | ArmTimer(delay: int) // arm one timer for `delay` milliseconds

  /** The decision of src/services/api.js lines 86-104, with `Date.now()` as `now`.
    * An expiry of 0 counts as none (`if (!expiry)`). */
  function Plan(accessToken: Option<string>, claim: ExpClaim, now: int): (p: TimerPlan)
    ensures p.NoTimer? <==>
      !IsTruthy(accessToken) || TokenExpiry(accessToken.value, claim) in {None, Some(0)}
    ensures p.ArmTimer? ==>
      p.delay > 0 && now + p.delay + RefreshMargin == TokenExpiry(accessToken.value, claim).value
    ensures p.RefreshNow? ==>
      TokenExpiry(accessToken.value, claim).value - RefreshMargin <= now
  {
    if !IsTruthy(accessToken) then NoTimer
    else
      match TokenExpiry(accessToken.value, claim)
      case None => NoTimer
      case Some(expiry) =>
        if expiry == 0 then NoTimer
        else
          var delay := expiry - now - RefreshMargin;
          if delay <= 0 then RefreshNow else ArmTimer(delay)
  }
}
