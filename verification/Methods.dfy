/**
  The sign-up methods an account records, as a comma-separated list, and the
  two tests made on it: whole-name membership for decisions
  (internal/http_handlers/oauth_callback.go, signupMethodsContain) and a
  substring test when a provider is appended.
 */
module Methods {
  import opened Text

  const GOOGLE: Str := "google"
  const GITHUB: Str := "github"
  const FACEBOOK: Str := "facebook"
  const LINKEDIN: Str := "linkedin"
  const APPLE: Str := "apple"
  const DISCORD: Str := "discord"
  const TWITTER: Str := "twitter"
  const MICROSOFT: Str := "microsoft"
  const TWITCH: Str := "twitch"
  const ROBLOX: Str := "roblox"
  const BASIC_AUTH: Str := "basic_auth"
  const MOBILE_BASIC_AUTH: Str := "mobile_basic_auth"
  const MAGIC_LINK_LOGIN: Str := "magic_link_login"
  const MOBILE_OTP: Str := "mobile_otp"
  const WEBAUTHN: Str := "webauthn"
  const SSO: Str := "sso"
  const SERVICE_ACCOUNT: Str := "service_account"
  const SCIM: Str := "scim"

  /** The social providers. */
  predicate IsProvider(s: Str) {
    || s == GOOGLE || s == GITHUB || s == FACEBOOK || s == LINKEDIN || s == APPLE
    || s == DISCORD || s == TWITTER || s == MICROSOFT || s == TWITCH || s == ROBLOX
  }

  /** The methods the server declares (internal/constants/auth_methods.go). */
  predicate IsMethod(s: Str) {
    || IsProvider(s)
    || s == BASIC_AUTH || s == MOBILE_BASIC_AUTH || s == MAGIC_LINK_LOGIN || s == MOBILE_OTP
    || s == WEBAUTHN || s == SSO || s == SERVICE_ACCOUNT
  }

  /** What the server stores as a method: a declared one, or that of a provisioned account (internal/service/scim/scim.go). */
  predicate IsStored(s: Str) { IsMethod(s) || s == SCIM }

  /** A name that holds no provider's name but its own. */
  ghost predicate ClearName(m: Str) {
    forall p :: IsProvider(p) && Contains(m, p) ==> TrimSpace(m) == p
  }

  ghost predicate ClearList(methods: Str) {
    forall m :: m in Split(methods, COMMA) ==> ClearName(m)
  }

  /** Whole-name membership in a list. */
  ghost predicate Owns(methods: Str, provider: Str) {
    exists m :: m in Split(methods, COMMA) && TrimSpace(m) == provider
  }

  method SignupMethodsContain(methods: Str, provider: Str) returns (found: bool)
    ensures found <==> Owns(methods, provider)
  {
    var parts := Split(methods, COMMA);
    for i := 0 to |parts|
      invariant forall m :: m in parts[..i] ==> TrimSpace(m) != provider
    {
      if TrimSpace(parts[i]) == provider {
        return true;
      }
    }
    return false;
  }

  /** The list after a login by this provider. */
  function Linked(methods: Str, provider: Str): Str {
    if Contains(methods, provider) then methods else methods + COMMA + provider
  }

  // ---------------------------------------------------------------- names within names

  lemma ContainsItself(s: Str)
    ensures Contains(s, s)
  {
    assert At(s, s, 0);
  }

  /** A name that does not hold another: it is shorter, or lacks a byte of it. */
  predicate Apart(m: Str, provider: Str, mark: Str)
    requires |mark| == 2
  {
    m == provider || |m| < |provider| || mark[0] !in m || mark[1] !in m
  }

  /** Two bytes of a provider's name that no other method, unless it is shorter, has both of. */
  predicate Marked(provider: Str, mark: Str) {
    && |mark| == 2 && mark[0] in provider && mark[1] in provider
    && Apart(GOOGLE, provider, mark) && Apart(GITHUB, provider, mark) && Apart(FACEBOOK, provider, mark)
    && Apart(LINKEDIN, provider, mark) && Apart(APPLE, provider, mark) && Apart(DISCORD, provider, mark)
    && Apart(TWITTER, provider, mark) && Apart(MICROSOFT, provider, mark) && Apart(TWITCH, provider, mark)
    && Apart(ROBLOX, provider, mark) && Apart(BASIC_AUTH, provider, mark) && Apart(MOBILE_BASIC_AUTH, provider, mark)
    && Apart(MAGIC_LINK_LOGIN, provider, mark) && Apart(MOBILE_OTP, provider, mark) && Apart(WEBAUTHN, provider, mark)
    && Apart(SSO, provider, mark) && Apart(SERVICE_ACCOUNT, provider, mark)
  }

  lemma GoogleMarked()
    ensures Marked(GOOGLE, "eg")
  {
  }

  lemma GithubMarked()
    ensures Marked(GITHUB, "bg")
  {
  }

  lemma FacebookMarked()
    ensures Marked(FACEBOOK, "af")
  {
  }

  lemma LinkedinMarked()
    ensures Marked(LINKEDIN, "dd")
  {
  }

  lemma AppleMarked()
    ensures Marked(APPLE, "ap")
  {
  }

  lemma DiscordMarked()
    ensures Marked(DISCORD, "cd")
  {
  }

  lemma TwitterMarked()
    ensures Marked(TWITTER, "iw")
  {
  }

  lemma MicrosoftMarked()
    ensures Marked(MICROSOFT, "ff")
  {
  }

  lemma TwitchMarked()
    ensures Marked(TWITCH, "cw")
  {
  }

  lemma RobloxMarked()
    ensures Marked(ROBLOX, "xx")
  {
  }

  lemma ProviderMarked(provider: Str) returns (mark: Str)
    requires IsProvider(provider)
    ensures Marked(provider, mark)
  {
    if provider == GOOGLE {
      GoogleMarked();
      mark := "eg";
    } else if provider == GITHUB {
      GithubMarked();
      mark := "bg";
    } else if provider == FACEBOOK {
      FacebookMarked();
      mark := "af";
    } else if provider == LINKEDIN {
      LinkedinMarked();
      mark := "dd";
    } else if provider == APPLE {
      AppleMarked();
      mark := "ap";
    } else if provider == DISCORD {
      DiscordMarked();
      mark := "cd";
    } else if provider == TWITTER {
      TwitterMarked();
      mark := "iw";
    } else if provider == MICROSOFT {
      MicrosoftMarked();
      mark := "ff";
    } else if provider == TWITCH {
      TwitchMarked();
      mark := "cw";
    } else {
      RobloxMarked();
      mark := "xx";
    }
  }

  /** No declared method contains a provider's name but that provider itself. */
  lemma NamesAreApart(m: Str, provider: Str)
    requires IsMethod(m) && IsProvider(provider)
    ensures Contains(m, provider) <==> m == provider
  {
    ContainsItself(provider);
    var mark := ProviderMarked(provider);
    if m != provider {
      ApartLacks(m, provider, mark);
    }
  }

  lemma ApartLacks(m: Str, provider: Str, mark: Str)
    requires m != provider && |mark| == 2 && mark[0] in provider && mark[1] in provider && Apart(m, provider, mark)
    ensures !Contains(m, provider)
  {
  }

  // ---------------------------------------------------------------- a substring of a list

  /** A text without the separator occurs in a list exactly when it occurs in one of the parts. */
  lemma {:induction false} ContainsInPart(s: Str, c: byte, sub: Str)
    requires c !in sub
    ensures Contains(s, sub) <==> exists p :: p in Split(s, [c]) && Contains(p, sub)
    decreases |s|
  {
    var i := IndexFrom(s, [c], 0);
    if i < |s| {
      var head, rest := s[..i], s[i + 1..];
      ContainsInPart(rest, c, sub);
      assert s == head + [c] + rest;
      ContainsAcross(head, c, rest, sub);
    }
  }

  lemma ContainsAcross(head: Str, c: byte, rest: Str, sub: Str)
    requires c !in sub
    ensures Contains(head + [c] + rest, sub) <==> Contains(head, sub) || Contains(rest, sub)
  {
    var s := head + [c] + rest;
    forall i | 0 <= i <= |head|
      ensures At(head, sub, i) ==> At(s, sub, i)
    {
      if At(head, sub, i) {
        assert s[i..i + |sub|] == head[i..i + |sub|];
      }
    }
    forall i | 0 <= i <= |rest|
      ensures At(rest, sub, i) <==> At(s, sub, |head| + 1 + i)
    {
      if i + |sub| <= |rest| {
        assert s[|head| + 1 + i..|head| + 1 + i + |sub|] == rest[i..i + |sub|];
      }
    }
    if Contains(s, sub) {
      var k :| 0 <= k <= |s| && At(s, sub, k);
      OccurrenceSide(head, c, rest, sub, k);
    }
  }

  lemma OccurrenceSide(head: Str, c: byte, rest: Str, sub: Str, k: nat)
    requires c !in sub && At(head + [c] + rest, sub, k)
    ensures Contains(head, sub) || Contains(rest, sub)
  {
    var s := head + [c] + rest;
    assert s[|head|] == c;
    if k + |sub| <= |head| {
      assert At(head, sub, k);
    } else {
      var i := k - |head| - 1;
      assert At(rest, sub, i);
    }
  }

  // ---------------------------------------------------------------- what the two tests mean

  /** Provider names are plain words. */
  lemma MethodIsPlain(m: Str)
    requires IsMethod(m)
    ensures ',' !in m && TrimSpace(m) == m && m != []
  {
    TrimNothing(m);
  }

  lemma {:induction false} TrimLeftWithin(s: Str)
    ensures Contains(s, TrimLeft(s)) && TrimLeft(s) <= s[|s| - |TrimLeft(s)|..] && |TrimLeft(s)| <= |s|
  {
    if s != [] && IsSpace(s[0]) {
      TrimLeftWithin(s[1..]);
    }
    assert At(s, TrimLeft(s), |s| - |TrimLeft(s)|);
  }

  lemma TrimWithin(s: Str)
    ensures Contains(s, TrimSpace(s))
  {
    TrimLeftWithin(s);
    TrimRightEnds(TrimLeft(s));
    var i := |s| - |TrimLeft(s)|;
    assert s[i..i + |TrimSpace(s)|] == TrimSpace(s);
    assert At(s, TrimSpace(s), i);
  }

  lemma ProviderLong(p: Str)
    requires IsProvider(p)
    ensures |p| > |SCIM|
  {
  }

  /** Every method the server stores is clear, so lists of them are. */
  lemma StoredIsClear(m: Str)
    requires IsStored(m)
    ensures ClearName(m)
  {
    forall p | IsProvider(p) && Contains(m, p)
      ensures TrimSpace(m) == p
    {
      if m == SCIM {
        ProviderLong(p);
      } else {
        NamesAreApart(m, p);
        MethodIsPlain(m);
      }
    }
  }

  lemma StoredListIsClear(methods: Str)
    requires forall m :: m in Split(methods, COMMA) ==> IsStored(m)
    ensures ClearList(methods)
  {
    forall m | m in Split(methods, COMMA)
      ensures ClearName(m)
    {
      StoredIsClear(m);
    }
  }

  /** On clear lists the substring test and the exact one agree. */
  lemma TestsAgree(methods: Str, provider: Str)
    requires ClearList(methods) && IsProvider(provider)
    ensures Contains(methods, provider) <==> Owns(methods, provider)
  {
    MethodIsPlain(provider);
    ContainsInPart(methods, ',', provider);
    if Owns(methods, provider) {
      var m :| m in Split(methods, COMMA) && TrimSpace(m) == provider;
      TrimWithin(m);
    }
  }

  /** The list a login leaves: the old one, with the provider at its end if anything was added. */
  lemma LinkedParts(methods: Str, provider: Str)
    requires ',' !in provider
    ensures Split(Linked(methods, provider), COMMA) ==
            Split(methods, COMMA) + (if Contains(methods, provider) then [] else [provider])
  {
    if !Contains(methods, provider) {
      SplitAppend(methods, ',', provider);
      CleanChar(provider, ',');
    }
  }

  /**
    For any stored text: no method is lost, linking twice is linking once, and a
    login leaves the provider an owner exactly when it owned the account already
    or its name is no part of the text.
   */
  lemma LinkedOwns(methods: Str, provider: Str)
    requires ',' !in provider && TrimSpace(provider) == provider
    ensures Split(methods, COMMA) <= Split(Linked(methods, provider), COMMA)
    ensures Linked(Linked(methods, provider), provider) == Linked(methods, provider)
    ensures Owns(Linked(methods, provider), provider) <==> Owns(methods, provider) || !Contains(methods, provider)
    ensures forall other :: Owns(methods, other) ==> Owns(Linked(methods, provider), other)
  {
    LinkedParts(methods, provider);
    if !Contains(methods, provider) {
      var linked := Linked(methods, provider);
      assert linked[|methods| + 1..|methods| + 1 + |provider|] == provider;
      assert At(linked, provider, |methods| + 1);
    }
  }

  /** So on clear lists it always is one, and the list stays clear. */
  lemma LinkedClear(methods: Str, provider: Str)
    requires ClearList(methods) && IsProvider(provider)
    ensures ClearList(Linked(methods, provider)) && Owns(Linked(methods, provider), provider)
  {
    MethodIsPlain(provider);
    TestsAgree(methods, provider);
    LinkedParts(methods, provider);
    LinkedOwns(methods, provider);
    StoredIsClear(provider);
  }

  /** On other texts the substring test misleads: a provider within a longer word is taken for linked, and owns nothing. */
  lemma SubstringMisleads()
    ensures var stored: Str := "googlemail";
            Contains(stored, GOOGLE) && Linked(stored, GOOGLE) == stored && !Owns(stored, GOOGLE)
  {
    var stored: Str := "googlemail";
    assert stored[0..6] == GOOGLE && At(stored, GOOGLE, 0);
    TrimNothing(stored);
    CleanChar(stored, ',');
    SplitWhole(stored, COMMA);
    assert Split(stored, COMMA) == [stored] && |stored| == 10;
  }
}
