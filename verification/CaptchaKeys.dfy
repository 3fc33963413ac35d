/** Under which key a user's captcha is kept (crates/wechat-api/src/captcha.rs), and which users share one. */
module CaptchaKeys {

  function CaptchaKey(account: string, openid: string): string {
    "wechat:" + account + ":captcha:" + openid
  }

  predicate Has(s: string, c: char) {
    exists i | 0 <= i < |s| :: s[i] == c
  }

  /** What stands where in a key. */
  lemma KeyParts(account: string, openid: string)
    ensures var k := CaptchaKey(account, openid);
            && |k| == |account| + |openid| + 16
            && k[..7] == "wechat:" && k[7..|account| + 7] == account
            && k[|account| + 7..|account| + 16] == ":captcha:" && k[|account| + 16..] == openid
  {
    var k, front := CaptchaKey(account, openid), "wechat:" + account;
    assert k == front + ":captcha:" + openid;
    assert k[7..|account| + 7] == account;
  }

  /** Under one account each user has a key of his own. */
  lemma UsersApart(account: string, openid: string, other: string)
    requires CaptchaKey(account, openid) == CaptchaKey(account, other)
    ensures openid == other
  {
    KeyParts(account, openid);
    KeyParts(account, other);
  }

  /** An account's name goes on with the separator of keys, or with all of it but the final colon. */
  predicate GoesOn(a: string, b: string) {
    a + ":captcha:" <= b + ":"
  }

  /** Another account, and neither name goes on from the other with the separator. */
  predicate ApartFrom(a: string, b: string) {
    a != b && !GoesOn(a, b) && !GoesOn(b, a)
  }

  predicate ColonEnds(m: string) {
    |m| == 9 && m[0] == ':' && m[8] == ':' && forall i | 0 < i < 8 :: m[i] != ':'
  }

  /** A separator that starts later reaches no further into an earlier one than its last colon. */
  lemma LaterSeparator(a: string, o: string, b: string, p: string, m: string)
    requires ColonEnds(m) && a + m + o == b + m + p && |a| < |b|
    ensures a + m <= b + ":"
  {
    var k := a + m + o;
    assert k[|b|] == ':' by { assert (b + m + p)[|b|] == m[0]; }
    if |b| - |a| < 9 { assert k[|b|] == m[|b| - |a|]; }
    assert |b| - |a| >= 8;
    assert a + m == k[..|a| + 9];
    assert b + ":" == k[..|b| + 1] by { assert b == k[..|b|]; }
  }

  lemma SharedGoesOn(a: string, o: string, b: string, p: string)
    requires CaptchaKey(a, o) == CaptchaKey(b, p) && |a| < |b|
    ensures GoesOn(a, b)
  {
    assert a + ":captcha:" + o == CaptchaKey(a, o)[7..];
    assert b + ":captcha:" + p == CaptchaKey(b, p)[7..];
    LaterSeparator(a, o, b, p, ":captcha:");
  }

  /** The first account's user is what the longer name has more, the separator, and the second's name. */
  lemma GoesOnShares(a: string, b: string) returns (o: string)
    requires GoesOn(a, b)
    ensures CaptchaKey(a, o) == CaptchaKey(b, "")
  {
    o := CaptchaKey(b, "")[|a| + 16..];
    GoesOnBegins("wechat:", a, b, ":captcha:");
  }

  lemma GoesOnBegins(front: string, a: string, b: string, m: string)
    requires |m| > 0 && m[0] == ':' && a + m <= b + ":"
    ensures front + a + m <= front + b + m
  {
    var long := front + b + m;
    assert front + b + ":" == long[..|front + b| + 1];
    assert front + (b + ":") == front + b + ":" && front + (a + m) == front + a + m;
    assert (front + (b + ":"))[..|front| + |a + m|] == front + (a + m);
  }

  /** Two accounts never share a key exactly when neither name goes on from the other with the separator. */
  lemma AccountsApartExactly(a: string, b: string)
    ensures (forall o, p :: CaptchaKey(a, o) != CaptchaKey(b, p)) <==> ApartFrom(a, b)
  {
    if GoesOn(a, b) {
      var o := GoesOnShares(a, b);
    } else if GoesOn(b, a) {
      var o := GoesOnShares(b, a);
    } else if a == b {
      assert CaptchaKey(a, "") == CaptchaKey(b, "");
    } else {
      forall o, p ensures CaptchaKey(a, o) != CaptchaKey(b, p) {
        if CaptchaKey(a, o) == CaptchaKey(b, p) {
          KeyParts(a, o);
          KeyParts(b, p);
          if |a| < |b| { SharedGoesOn(a, o, b, p); } else if |b| < |a| { SharedGoesOn(b, p, a, o); }
        }
      }
    }
  }

  lemma OnwardHasColon(a: string, b: string)
    requires GoesOn(a, b)
    ensures Has(b, ':')
  {
    assert (a + ":captcha:")[|a|] == ':';
    assert (b + ":")[|a|] == b[|a|];
  }

  /** So it is for accounts without a colon in their names. */
  lemma PlainAccountsApart(a: string, o: string, b: string, p: string)
    requires !Has(a, ':') && !Has(b, ':')
    ensures a != b ==> ApartFrom(a, b)
    ensures CaptchaKey(a, o) == CaptchaKey(b, p) ==> a == b && o == p
  {
    AccountsApartExactly(a, b);
    if GoesOn(a, b) { OnwardHasColon(a, b); }
    if GoesOn(b, a) { OnwardHasColon(b, a); }
    if CaptchaKey(a, o) == CaptchaKey(b, p) {
      if a == b { UsersApart(a, o, p); }
    }
  }

  /** And not for all: a user of an account and one of the account named after it share one. */
  lemma AccountsCanShare(account: string, openid: string)
    ensures CaptchaKey(account, "captcha:" + openid) == CaptchaKey(account + ":captcha", openid)
  {
    var front, after := "wechat:" + account, "captcha:" + openid;
    assert ":captcha:" + after == ":captcha" + (":captcha:" + openid);
    assert CaptchaKey(account, after) == front + (":captcha:" + after);
    assert CaptchaKey(account + ":captcha", openid) == front + (":captcha" + (":captcha:" + openid));
  }
}
