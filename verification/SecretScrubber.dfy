/**
 Masking secrets in a line of output: each non-empty secret in turn is replaced by
 three asterisks.
 */
module SecretScrubber {

  const MASK := "***"

  /** `str.replace` with the mask: leftmost occurrences first, none overlapping. */
  function Replace(s: string, secret: string): string
    requires secret != ""
    decreases |s|
  {
    if s == "" then ""
    else if secret <= s then MASK + Replace(s[|secret|..], secret)
    else [s[0]] + Replace(s[1..], secret)
  }

  function Scrubbed(line: string, secrets: seq<string>): string {
    if secrets == [] then line
    else
      var before := Scrubbed(line, secrets[..|secrets| - 1]);
      var last := secrets[|secrets| - 1];
      if last == "" then before else Replace(before, last)
  }

  method ScrubSecrets(line: string, secrets: seq<string>) returns (result: string)
    ensures result == Scrubbed(line, secrets)
  {
    result := line;
    for i := 0 to |secrets|
      invariant result == Scrubbed(line, secrets[..i])
    {
      assert secrets[..i + 1][..i] == secrets[..i];
      if secrets[i] != "" {
        result := Replace(result, secrets[i]);
      }
    }
    assert secrets[..|secrets|] == secrets;
  }

  // ------------------------------------------------------------ occurrences

  predicate OccursAt(t: string, s: string, i: int) {
    0 <= i <= |s| - |t| && s[i..i + |t|] == t
  }

  ghost predicate Occurs(t: string, s: string) {
    exists i :: OccursAt(t, s, i)
  }

  /** Masks cannot take part in an occurrence of such a secret. */
  ghost predicate Maskable(secret: string) {
    secret != "" && secret[0] != '*' && secret[|secret| - 1] != '*' && !Occurs(MASK, secret)
  }

  lemma Pointwise(t: string, s: string, i: int)
    ensures OccursAt(t, s, i) <==> 0 <= i <= |s| - |t| && forall k :: 0 <= k < |t| ==> s[i + k] == t[k]
  {
    if 0 <= i <= |s| - |t| {
      var part := s[i..i + |t|];
      assert forall k :: 0 <= k < |t| ==> part[k] == s[i + k];
    }
  }

  lemma OccursLater(t: string, s: string, k: nat, i: int)
    requires k <= |s| && OccursAt(t, s[k..], i)
    ensures OccursAt(t, s, k + i)
  {
    assert s[k..][i..i + |t|] == s[k + i..k + i + |t|];
  }

  lemma OccursEarlier(t: string, a: string, b: string, i: int)
    requires OccursAt(t, a + b, i) && i >= |a|
    ensures OccursAt(t, b, i - |a|)
  {
    assert (a + b)[i..i + |t|] == b[i - |a|..i - |a| + |t|];
  }

  /** Text that ends in no asterisk and holds no whole mask cannot run into one. */
  lemma {:induction false} PrefixWasThere(x: string, s: string, secret: string)
    requires secret != "" && x <= Replace(s, secret)
    requires !Occurs(MASK, x) && (x != "" ==> x[|x| - 1] != '*')
    ensures x <= s
    decreases |s|
  {
    if x != "" {
      assert s != "";
      if secret <= s {
        MaskStopsPrefix(x, Replace(s[|secret|..], secret));
      } else {
        var tail := Replace(s[1..], secret);
        assert ([s[0]] + tail)[1..|x|] == tail[..|x| - 1];
        assert x[1..] <= tail;
        if Occurs(MASK, x[1..]) {
          var i :| OccursAt(MASK, x[1..], i);
          OccursLater(MASK, x, 1, i);
          assert false;
        }
        PrefixWasThere(x[1..], s[1..], secret);
        assert x == [x[0]] + x[1..] && s == [s[0]] + s[1..];
      }
    }
  }

  lemma MaskStopsPrefix(x: string, rest: string)
    requires x <= MASK + rest && !Occurs(MASK, x)
    ensures x == "" || x[|x| - 1] == '*'
  {
    if |x| >= 3 {
      assert x[0..3] == (MASK + rest)[0..3] == MASK;
      assert OccursAt(MASK, x, 0);
    } else if x != "" {
      assert x[|x| - 1] == (MASK + rest)[|x| - 1];
    }
  }

  /** No replacement brings a maskable text into being. */
  lemma {:induction false} NothingIsCreated(t: string, s: string, secret: string, i: int)
    requires secret != "" && Maskable(t) && OccursAt(t, Replace(s, secret), i)
    ensures exists j :: OccursAt(t, s, j)
    decreases |s|
  {
    if s == "" {
      assert false;
    } else if secret <= s {
      var tail := Replace(s[|secret|..], secret);
      assert (MASK + tail)[i] == t[0];
      OccursEarlier(t, MASK, tail, i);
      NothingIsCreated(t, s[|secret|..], secret, i - 3);
      var j :| OccursAt(t, s[|secret|..], j);
      OccursLater(t, s, |secret|, j);
    } else {
      var tail := Replace(s[1..], secret);
      if i == 0 {
        PrefixWasThere(t, s, secret);
        assert OccursAt(t, s, 0);
      } else {
        OccursEarlier(t, [s[0]], tail, i);
        NothingIsCreated(t, s[1..], secret, i - 1);
        var j :| OccursAt(t, s[1..], j);
        OccursLater(t, s, 1, j);
      }
    }
  }

  lemma {:induction false} NoneIsLeft(s: string, secret: string, i: int)
    requires Maskable(secret)
    ensures !OccursAt(secret, Replace(s, secret), i)
    decreases |s|
  {
    if s != "" && OccursAt(secret, Replace(s, secret), i) {
      if secret <= s {
        var tail := Replace(s[|secret|..], secret);
        assert (MASK + tail)[i] == secret[0];
        OccursEarlier(secret, MASK, tail, i);
        NoneIsLeft(s[|secret|..], secret, i - 3);
      } else if i == 0 {
        PrefixWasThere(secret, s, secret);
      } else {
        OccursEarlier(secret, [s[0]], Replace(s[1..], secret), i);
        NoneIsLeft(s[1..], secret, i - 1);
      }
      assert false;
    }
  }

  /** Whatever the line, no listed secret is in the result: a later replacement does
      not bring back what an earlier one removed. */
  lemma {:induction false} NoSecretSurvives(line: string, secrets: seq<string>, secret: string)
    requires forall k :: 0 <= k < |secrets| && secrets[k] != "" ==> Maskable(secrets[k])
    requires secret in secrets && secret != ""
    ensures !Occurs(secret, Scrubbed(line, secrets))
  {
    var n := |secrets| - 1;
    var before, last := Scrubbed(line, secrets[..n]), secrets[n];
    if secret == last {
      forall i ensures !OccursAt(secret, Replace(before, last), i) {
        NoneIsLeft(before, last, i);
      }
    } else {
      NoSecretSurvives(line, secrets[..n], secret);
      if last != "" && Occurs(secret, Replace(before, last)) {
        var i :| OccursAt(secret, Replace(before, last), i);
        NothingIsCreated(secret, before, last, i);
        assert false;
      }
    }
  }

  /** In particular secrets without an asterisk. */
  lemma PlainIsMaskable(secret: string)
    requires secret != "" && '*' !in secret
    ensures Maskable(secret)
  {
    forall i ensures !OccursAt(MASK, secret, i) {
      Pointwise(MASK, secret, i);
      assert 0 <= i <= |secret| - 3 ==> secret[i + 0] in secret && MASK[0] == '*';
    }
  }

  lemma {:induction false} Untouched(s: string, secret: string)
    requires secret != "" && forall i :: !OccursAt(secret, s, i)
    ensures Replace(s, secret) == s
    decreases |s|
  {
    if s != "" {
      assert !OccursAt(secret, s, 0);
      forall i ensures !OccursAt(secret, s[1..], i) {
        assert !OccursAt(secret, s, 1 + i);
        if OccursAt(secret, s[1..], i) {
          OccursLater(secret, s, 1, i);
          assert false;
        }
      }
      Untouched(s[1..], secret);
    }
  }

  /** Nothing else is touched: a line that holds no secret comes back as it was. */
  lemma {:induction false} CleanLineIsKept(line: string, secrets: seq<string>)
    requires forall k :: 0 <= k < |secrets| && secrets[k] != "" ==> !Occurs(secrets[k], line)
    ensures Scrubbed(line, secrets) == line
  {
    if secrets != [] {
      CleanLineIsKept(line, secrets[..|secrets| - 1]);
      if secrets[|secrets| - 1] != "" {
        Untouched(line, secrets[|secrets| - 1]);
      }
    }
  }

  // -------------------------------------------------- secrets with asterisks

  lemma {:induction false} TooShortToMatch(s: string, secret: string)
    requires |s| < |secret|
    ensures Replace(s, secret) == s
    decreases |s|
  {
    if s != "" {
      TooShortToMatch(s[1..], secret);
    }
  }

  lemma {:induction false} ReplacesOnce(u: string, secret: string, v: string)
    requires |v| < |secret| && forall i :: 0 <= i < |u| ==> !OccursAt(secret, u + secret + v, i)
    ensures Replace(u + secret + v, secret) == u + MASK + v
    decreases |u|
  {
    var s := u + secret + v;
    if u == "" {
      assert s[..|secret|] == secret && s[|secret|..] == v;
      TooShortToMatch(v, secret);
    } else {
      assert !OccursAt(secret, s, 0);
      assert s[1..] == u[1..] + secret + v;
      forall i | 0 <= i < |u| - 1 ensures !OccursAt(secret, u[1..] + secret + v, i) {
        assert !OccursAt(secret, s, i + 1);
        if OccursAt(secret, s[1..], i) {
          OccursLater(secret, s, 1, i);
          assert false;
        }
      }
      ReplacesOnce(u[1..], secret, v);
    }
  }

  /** The line that brings a secret back, for each way of not being maskable. */
  lemma {:induction false} StartSurvives(secret: string)
    requires secret != "" && secret[0] == '*'
    ensures Occurs(secret, Replace(secret + secret[1..], secret))
  {
    assert "" + secret + secret[1..] == secret + secret[1..];
    ReplacesOnce("", secret, secret[1..]);
    var result := "" + MASK + secret[1..];
    assert result[2..2 + |secret|] == secret;
    assert OccursAt(secret, result, 2);
  }

  lemma {:induction false} EndSurvives(secret: string)
    requires secret != "" && secret[0] != '*' && secret[|secret| - 1] == '*'
    ensures Occurs(secret, Replace(secret[..|secret| - 1] + secret, secret))
  {
    var u := secret[..|secret| - 1];
    forall i | 0 <= i < |u| ensures !OccursAt(secret, u + secret + "", i) {
      NotBeforeTheEnd(secret, i);
      EndParts(secret);
    }
    ReplacesOnce(u, secret, "");
    EndParts(secret);
    AtTheFront(secret, "**");
  }

  lemma EndParts(secret: string)
    requires secret != "" && secret[|secret| - 1] == '*'
    ensures var u := secret[..|secret| - 1]; u + secret + "" == u + secret && u + MASK + "" == secret + "**"
  {
    var u := secret[..|secret| - 1];
    assert secret == u + "*";
    assert u + MASK == u + ("*" + "**");
  }

  lemma AtTheFront(s: string, rest: string)
    ensures OccursAt(s, s + rest, 0)
  {
    assert (s + rest)[0..|s|] == s;
  }

  lemma NotBeforeTheEnd(secret: string, i: nat)
    requires i < |secret| - 1 && secret[0] != '*' && secret[|secret| - 1] == '*'
    ensures !OccursAt(secret, secret[..|secret| - 1] + secret, i)
  {
    var line := secret[..|secret| - 1] + secret;
    Pointwise(secret, line, i);
    assert line[i + 0] == secret[i] && line[i + (|secret| - 1)] == secret[i];
  }

  lemma {:induction false} MaskInsideSurvives(secret: string, p: nat)
    requires secret != "" && secret[0] != '*' && secret[|secret| - 1] != '*'
    requires OccursAt(MASK, secret, p) && forall i :: 0 <= i < p ==> !OccursAt(MASK, secret, i)
    ensures Occurs(secret, Replace(secret[..p] + secret + secret[p + 3..], secret))
  {
    var u, v := secret[..p], secret[p + 3..];
    forall i | 0 <= i < p ensures !OccursAt(secret, u + secret + v, i) {
      ForgedLine(secret, p);
      NotBeforeTheMask(secret, p, u + secret + v, i);
    }
    ReplacesOnce(u, secret, v);
    Reassembled(secret, p);
  }

  lemma ForgedLine(secret: string, p: nat)
    requires p + 3 <= |secret|
    ensures var line := secret[..p] + secret + secret[p + 3..];
      && |line| >= p + |secret|
      && (forall k :: 0 <= k < p ==> line[k] == secret[k])
      && (forall k :: p <= k < p + |secret| ==> line[k] == secret[k - p])
  {
  }

  lemma Reassembled(secret: string, p: nat)
    requires OccursAt(MASK, secret, p)
    ensures secret[..p] + MASK + secret[p + 3..] == secret
    ensures OccursAt(secret, secret, 0)
  {
    assert secret[..p] + secret[p..p + 3] + secret[p + 3..] == secret;
  }

  lemma NotBeforeTheMask(secret: string, p: nat, line: string, i: nat)
    requires secret != "" && secret[0] != '*' && i < p
    requires OccursAt(MASK, secret, p) && forall j :: 0 <= j < p ==> !OccursAt(MASK, secret, j)
    requires |line| >= p + |secret| && forall k :: 0 <= k < p ==> line[k] == secret[k]
    requires forall k :: p <= k < p + |secret| ==> line[k] == secret[k - p]
    ensures !OccursAt(secret, line, i)
  {
    FirstMaskOfLine(secret, p, line, i + p);
    Pointwise(secret, line, i);
    ThreeStars(line, i + p);
    ThreeStars(secret, p);
    assert line[i + (p + 0)] == line[i + p] && line[i + (p + 1)] == line[i + p + 1] && line[i + (p + 2)] == line[i + p + 2];
  }

  /** In secret[..p] + secret + ... the first whole mask is the one in the middle. */
  lemma FirstMaskOfLine(secret: string, p: nat, line: string, q: nat)
    requires secret != "" && secret[0] != '*' && q < 2 * p
    requires OccursAt(MASK, secret, p) && forall i :: 0 <= i < p ==> !OccursAt(MASK, secret, i)
    requires |line| >= p + |secret| && forall i :: 0 <= i < p ==> line[i] == secret[i]
    requires forall i :: p <= i < p + |secret| ==> line[i] == secret[i - p]
    ensures !OccursAt(MASK, line, q)
  {
    ThreeStars(line, q);
    if q >= p {
      assert !OccursAt(MASK, secret, q - p);
      ThreeStars(secret, q - p);
    } else if q + 2 < p {
      assert !OccursAt(MASK, secret, q);
      ThreeStars(secret, q);
    } else {
      assert line[p] == secret[0];
    }
  }

  lemma ThreeStars(s: string, q: nat)
    ensures OccursAt(MASK, s, q) <==> q + 3 <= |s| && s[q] == s[q + 1] == s[q + 2] == '*'
  {
    if q + 3 <= |s| {
      assert s[q..q + 3] == [s[q], s[q + 1], s[q + 2]];
    }
  }

  ghost predicate Leaks(line: string, secret: string)
    requires secret != ""
  {
    Occurs(secret, Replace(line, secret))
  }

  /** A single secret is removed from every line if and only if it is maskable. */
  lemma {:induction false} RemovedExactlyWhenMaskable(secret: string)
    requires secret != ""
    ensures (forall line :: !Leaks(line, secret)) <==> Maskable(secret)
  {
    if Maskable(secret) {
      forall line ensures !Leaks(line, secret) {
        forall i ensures !OccursAt(secret, Replace(line, secret), i) {
          NoneIsLeft(line, secret, i);
        }
      }
    } else {
      var line := LeakingLine(secret);
      assert Leaks(line, secret);
    }
  }

  lemma {:induction false} LeakingLine(secret: string) returns (line: string)
    requires secret != "" && !Maskable(secret)
    ensures Leaks(line, secret)
  {
    if secret[0] == '*' {
      line := secret + secret[1..];
      StartSurvives(secret);
    } else if secret[|secret| - 1] == '*' {
      line := secret[..|secret| - 1] + secret;
      EndSurvives(secret);
    } else {
      var q :| OccursAt(MASK, secret, q);
      var p := FirstAt(secret, q);
      line := secret[..p] + secret + secret[p + 3..];
      MaskInsideSurvives(secret, p);
    }
  }

  lemma FirstAt(secret: string, q: nat) returns (p: nat)
    requires OccursAt(MASK, secret, q)
    ensures OccursAt(MASK, secret, p) && forall i :: 0 <= i < p ==> !OccursAt(MASK, secret, i)
  {
    p := q;
    if i :| 0 <= i < q && OccursAt(MASK, secret, i) {
      p := FirstAt(secret, i);
    }
  }
}
