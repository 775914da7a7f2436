/** The masker of src/modules/actions/log.ts: `buildMasker` over the secret list that
    `collectSecrets` hands it. */
module Masking {
  import opened Text
  import opened SecretMask

  const MIN_SECRET_LENGTH := 6

  // --- The masker for a list of secrets ---------------------------------------------

  function MaskAll(text: string, secrets: seq<string>): (masked: string) {
    if secrets == [] then text
    else MaskOne(MaskAll(text, secrets[..|secrets| - 1]), secrets[|secrets| - 1])
  }

  /** No safe secret of the list is left, whatever the text, the order, and the other secrets. */
  lemma {:induction false} MaskComplete(text: string, secrets: seq<string>)
    ensures forall s :: s in secrets && Safe(s) ==> !Contains(MaskAll(text, secrets), s)
  {
    if secrets != [] {
      var n := |secrets| - 1;
      var before := MaskAll(text, secrets[..n]);
      MaskComplete(text, secrets[..n]);
      forall s | s in secrets && Safe(s)
        ensures !Contains(MaskAll(text, secrets), s)
      {
        assert s in secrets[..n] || s == secrets[n];
        StillRemoved(before, secrets[n], s);
      }
    }
  }

  lemma StillRemoved(text: string, secret: string, s: string)
    requires Safe(s)
    requires s == secret || !Contains(text, s)
    ensures !Contains(MaskOne(text, secret), s)
  {
    hide HasMask;
    forall i: nat
      ensures !OccursAt(MaskOne(text, secret), s, i)
    {
      if s == secret {
        Removed(text, secret, i);
      } else if OccursAt(MaskOne(text, secret), s, i) {
        if secret == "" {
          NotRebuiltBetween(text, s, i);
        } else {
          NeverRecreated(text, secret, s, i);
        }
      }
    }
  }

  lemma {:induction false} NoneReplaced(text: string, secret: string)
    requires secret != "" && !Contains(text, secret)
    ensures Replace(text, secret) == text
  {
    hide Contains, OccursAt;
    if |text| >= |secret| {
      if secret <= text {
        AtStart(text, secret);
        OccursContains(text, secret, 0);
      } else {
        if Contains(text[1..], secret) {
          ContainsDrop(text, secret, 1);
        }
        NoneReplaced(text[1..], secret);
      }
    }
  }

  /** Text without any of the secrets comes out as it is. */
  lemma {:induction false} CleanTextKept(text: string, secrets: seq<string>)
    requires forall s :: s in secrets ==> s != "" && !Contains(text, s)
    ensures MaskAll(text, secrets) == text
  {
    if secrets != [] {
      var n := |secrets| - 1;
      assert secrets[n] in secrets && forall s :: s in secrets[..n] ==> s in secrets;
      CleanTextKept(text, secrets[..n]);
      NoneReplaced(text, secrets[n]);
    }
  }

  predicate Includes(text: string, part: string) {
    exists i :: 0 <= i <= |text| - |part| && OccursAt(text, part, i)
  }

  lemma IncludesIsContains(text: string, part: string)
    ensures Includes(text, part) <==> Contains(text, part)
    ensures Includes(text, "")
  {
    assert OccursAt(text, "", 0);
    if Contains(text, part) {
      var i: nat :| OccursAt(text, part, i);
      assert 0 <= i <= |text| - |part|;
    }
  }

  method Mask(text: string, secrets: seq<string>) returns (out: string)
    ensures out == MaskAll(text, secrets)
  {
    out := text;
    for k := 0 to |secrets|
      invariant out == MaskAll(text, secrets[..k])
    {
      assert secrets[..k + 1][..k] == secrets[..k];
      var secret := secrets[k];
      IncludesIsContains(out, secret);
      if Includes(out, secret) {
        if secret == "" {
          out := MaskBetween(out);
        } else {
          SplitJoinReplaces(out, secret);
          out := Join(Split(out, secret), MASK);
        }
      } else {
        NoneReplaced(out, secret);
      }
    }
    assert secrets[..|secrets|] == secrets;
  }

  // --- Longest first ----------------------------------------------------------------

  ghost predicate LongestFirst(secrets: seq<string>) {
    forall i, j :: 0 <= i < j < |secrets| ==> |secrets[i]| >= |secrets[j]| && secrets[i] != secrets[j]
  }

  /** A stable insertion by descending length; a value already there is not added again. */
  function InsertSecret(sorted: seq<string>, secret: string): (r: seq<string>)
    requires LongestFirst(sorted) && secret !in sorted
    ensures LongestFirst(r)
    ensures forall s :: s in r <==> s in sorted || s == secret
  {
    if sorted == [] then [secret]
    else if |sorted[0]| >= |secret| then
      assert forall s :: s in sorted <==> s == sorted[0] || s in sorted[1..];
      var rest := InsertSecret(sorted[1..], secret);
      assert forall k :: 0 <= k < |rest| ==> rest[k] in rest;
      [sorted[0]] + rest
    else [secret] + sorted
  }

  /** The stored values worth masking: long enough, each once, longest first. */
  function CollectSecrets(values: seq<string>): (secrets: seq<string>)
    ensures LongestFirst(secrets)
    ensures forall s :: s in secrets <==> s in values && |s| >= 6
  {
    if values == [] then []
    else
      var rest := CollectSecrets(values[..|values| - 1]);
      var v := values[|values| - 1];
      assert forall s :: s in values <==> s in values[..|values| - 1] || s == v;
      if |v| < MIN_SECRET_LENGTH || v in rest then rest else InsertSecret(rest, v)
  }

  lemma LongerNotInside(text: string, part: string)
    requires |part| >= |text| && part != text
    ensures !Contains(text, part)
  {
  }

  lemma {:induction false} EarlierMissIt(secrets: seq<string>, k: nat, j: nat)
    requires LongestFirst(secrets) && j <= k < |secrets| && "" !in secrets
    ensures MaskAll(secrets[k], secrets[..j]) == secrets[k]
  {
    if j > 0 {
      EarlierMissIt(secrets, k, j - 1);
      assert secrets[..j][..j - 1] == secrets[..j - 1];
      LongerNotInside(secrets[k], secrets[j - 1]);
      NoneReplaced(secrets[k], secrets[j - 1]);
    }
  }

  /** In longest-first order a secret printed on its own is masked whole: no shorter secret
      inside it is masked first and leaves the rest readable. */
  lemma {:induction false} WholeSecretMasked(secrets: seq<string>, k: nat, j: nat)
    requires LongestFirst(secrets) && k < j <= |secrets|
    requires forall s :: s in secrets ==> |s| > |MASK|
    ensures MaskAll(secrets[k], secrets[..j]) == MASK
  {
    var last := secrets[j - 1];
    assert last in secrets && |last| > |MASK|;
    assert secrets[..j][..j - 1] == secrets[..j - 1];
    if j == k + 1 {
      EarlierMissIt(secrets, k, k);
      assert Replace(last, last) == MASK + Replace("", last) by {
        assert last[|last|..] == "";
      }
    } else {
      WholeSecretMasked(secrets, k, j - 1);
      LongerNotInside(MASK, last);
      NoneReplaced(MASK, last);
    }
  }

  /** The order matters: shorter first leaves the end of the longer secret readable. */
  lemma ShorterFirstLeaks()
    ensures MaskAll("abcdefgh", ["abcdef", "abcdefgh"]) == "***gh"
  {
    assert ["abcdef", "abcdefgh"][..1] == ["abcdef"] && ["abcdef"][..0] == [];
    assert "abcdefgh"[|"abcdef"|..] == "gh";
    assert MaskAll("abcdefgh", ["abcdef"]) == "***gh";
  }

  // --- Cutting the text -------------------------------------------------------------

  /** Scanning `x + y`, some replaced occurrence begins in `x` and ends in `y`. */
  predicate Straddles(x: string, y: string, secret: string)
    requires secret != ""
  {
    if x == "" || |x + y| < |secret| then false
    else if secret <= x + y then |secret| > |x| || Straddles(x[|secret|..], y, secret)
    else Straddles(x[1..], y, secret)
  }

  lemma StraddlesStep(x: string, y: string, secret: string)
    requires secret != "" && x != "" && |x + y| >= |secret|
    ensures Straddles(x, y, secret)
         == if secret <= x + y then |secret| > |x| || Straddles(x[|secret|..], y, secret) else Straddles(x[1..], y, secret)
  {
  }

  lemma ReplaceStep(x: string, y: string, secret: string)
    requires secret != "" && x != "" && |x + y| >= |secret|
    ensures secret <= x + y && |secret| <= |x| ==>
              && Replace(x + y, secret) == MASK + Replace(x[|secret|..] + y, secret)
              && Replace(x, secret) == MASK + Replace(x[|secret|..], secret)
    ensures !(secret <= x + y) ==>
              && Replace(x + y, secret) == [x[0]] + Replace(x[1..] + y, secret)
              && Replace(x, secret) == [x[0]] + Replace(x[1..], secret)
  {
    if secret <= x + y {
      if |secret| <= |x| {
        assert (x + y)[|secret|..] == x[|secret|..] + y && secret <= x;
      }
    } else {
      assert (x + y)[1..] == x[1..] + y && !(secret <= x);
      assert x == [x[0]] + x[1..];
    }
  }

  lemma ReplaceShort(text: string, secret: string)
    requires secret != "" && |text| < |secret|
    ensures Replace(text, secret) == text
  {
  }

  lemma {:induction false} UnsplitCut(x: string, y: string, secret: string)
    requires secret != "" && !Straddles(x, y, secret)
    ensures Replace(x + y, secret) == Replace(x, secret) + Replace(y, secret)
  {
    hide Straddles, Replace;
    if x == "" {
      assert x + y == y;
      ReplaceShort(x, secret);
    } else if |x + y| < |secret| {
      ReplaceShort(x, secret);
      ReplaceShort(y, secret);
      ReplaceShort(x + y, secret);
    } else {
      StraddlesStep(x, y, secret);
      ReplaceStep(x, y, secret);
      var head, rest := if secret <= x + y then MASK else [x[0]], if secret <= x + y then x[|secret|..] else x[1..];
      UnsplitCut(rest, y, secret);
      assert head + (Replace(rest, secret) + Replace(y, secret)) == head + Replace(rest, secret) + Replace(y, secret);
    }
  }

  /** Where an occurrence is split the mask is missing, whatever follows. */
  lemma {:induction false} SplitCut(x: string, y: string, secret: string, z: string)
    requires secret != "" && secret[0] != '*' && Straddles(x, y, secret)
    ensures Replace(x + y, secret) != Replace(x, secret) + z
  {
    StraddlesStep(x, y, secret);
    ReplaceStep(x, y, secret);
    if secret <= x + y && |secret| > |x| {
      assert x[0] == secret[0];
      assert Replace(x + y, secret)[0] == '*' && (Replace(x, secret) + z)[0] == x[0];
    } else {
      hide Straddles, Replace;
      var head, rest := if secret <= x + y then MASK else [x[0]], if secret <= x + y then x[|secret|..] else x[1..];
      SplitCut(rest, y, secret, z);
      SameRest(head, Replace(rest + y, secret), Replace(rest, secret) + z);
      assert head + Replace(rest, secret) + z == head + (Replace(rest, secret) + z);
    }
  }

  lemma SameRest(head: string, x: string, y: string)
    ensures head + x == head + y <==> x == y
  {
    assert (head + x)[|head|..] == x && (head + y)[|head|..] == y;
  }

  /** A cut changes what is masked only if it falls inside an occurrence that would be replaced,
      and then always, unless the secret begins like a mask. */
  lemma CutHarmlessIff(x: string, y: string, secret: string)
    requires secret != ""
    ensures !Straddles(x, y, secret) ==> Replace(x + y, secret) == Replace(x, secret) + Replace(y, secret)
    ensures secret[0] != '*' ==>
              (Replace(x + y, secret) == Replace(x, secret) + Replace(y, secret) <==> !Straddles(x, y, secret))
  {
    if !Straddles(x, y, secret) {
      UnsplitCut(x, y, secret);
    } else if secret[0] != '*' {
      SplitCut(x, y, secret, Replace(y, secret));
    }
  }

  /** A secret of stars can be split without harm: its parts read like the mask. */
  lemma StarsSplitHarmlessly()
    ensures var x, y, secret := "*", "******", "******";
            Straddles(x, y, secret) && Replace(x + y, secret) == Replace(x, secret) + Replace(y, secret)
  {
    var x, y, secret := "*", "******", "******";
    assert secret <= x + y;
    assert (x + y)[6..] == "*" && y[6..] == "";
    assert Replace(x + y, secret) == MASK + Replace("*", secret);
  }

  predicate NewlineOnlyLast(secret: string)
    requires secret != ""
  {
    '\n' !in secret[..|secret| - 1]
  }

  /** A secret isn't split after a newline, nor at the end of the output. */
  lemma {:induction false} LineUnsplit(x: string, y: string, secret: string)
    requires secret != "" && NewlineOnlyLast(secret)
    requires x == "" || y == "" || EndsLine(x)
    ensures !Straddles(x, y, secret)
  {
    if x == "" || |x + y| < |secret| {
    } else if secret <= x + y {
      if |secret| > |x| {
        NewlineInside(x, y, secret);
      }
      LineUnsplit(x[|secret|..], y, secret);
    } else {
      LineUnsplit(x[1..], y, secret);
    }
  }

  lemma NewlineInside(x: string, y: string, secret: string)
    requires EndsLine(x) && secret <= x + y && |secret| > |x|
    ensures !NewlineOnlyLast(secret)
  {
    assert secret[..|secret| - 1][|x| - 1] == (x + y)[|x| - 1];
  }

  /** Cutting at newlines never changes what is masked exactly when the secret has no newline
      before its last character. */
  lemma CutsSafeIff(secret: string)
    requires secret != ""
    ensures (forall x, y :: EndsLine(x) ==> Replace(x + y, secret) == Replace(x, secret) + Replace(y, secret))
            <==> NewlineOnlyLast(secret)
  {
    if NewlineOnlyLast(secret) {
      forall x, y | EndsLine(x)
        ensures Replace(x + y, secret) == Replace(x, secret) + Replace(y, secret)
      {
        LineUnsplit(x, y, secret);
        UnsplitCut(x, y, secret);
      }
    } else {
      var k :| 0 <= k < |secret| - 1 && secret[..|secret| - 1][k] == '\n';
      var x, y := secret[..k + 1], secret[k + 1..];
      assert x + y == secret && secret[|secret|..] == "";
      assert Replace(secret, secret) == MASK;
      assert (Replace(x, secret) + Replace(y, secret))[k] == '\n';
    }
  }

  lemma {:induction false} ReplaceEndsLine(x: string, secret: string)
    requires secret != "" && '\n' !in secret && EndsLine(x)
    ensures EndsLine(Replace(x, secret))
  {
    if |x| >= |secret| {
      if secret <= x {
        assert x[|x| - 1] == '\n' && (|x| == |secret| ==> x == secret);
        ReplaceEndsLine(x[|secret|..], secret);
      } else {
        if |x| > 1 {
          ReplaceEndsLine(x[1..], secret);
        } else {
          assert x[1..] == "";
        }
      }
    }
  }

  ghost predicate Printable(secrets: seq<string>) {
    forall s :: s in secrets ==> s != "" && '\n' !in s
  }

  lemma {:induction false} MaskEmpty(secrets: seq<string>)
    ensures MaskAll("", secrets) == ""
  {
    if secrets != [] {
      MaskEmpty(secrets[..|secrets| - 1]);
    }
  }

  lemma {:induction false} MaskEndsLine(x: string, secrets: seq<string>)
    requires Printable(secrets)
    ensures EndsLine(x) ==> EndsLine(MaskAll(x, secrets))
  {
    if secrets != [] {
      var n := |secrets| - 1;
      assert secrets[n] in secrets && forall s :: s in secrets[..n] ==> s in secrets;
      MaskEndsLine(x, secrets[..n]);
      if EndsLine(x) {
        ReplaceEndsLine(MaskAll(x, secrets[..n]), secrets[n]);
      }
    }
  }

  function MaskEach(parts: seq<string>, secrets: seq<string>): (chunks: seq<string>)
    ensures |chunks| == |parts|
    ensures forall i :: 0 <= i < |parts| ==> chunks[i] == MaskAll(parts[i], secrets)
  {
    seq(|parts|, i requires 0 <= i < |parts| => MaskAll(parts[i], secrets))
  }

  function ReplaceEach(parts: seq<string>, secret: string): (chunks: seq<string>)
    requires secret != ""
    ensures |chunks| == |parts|
    ensures forall i :: 0 <= i < |parts| ==> chunks[i] == Replace(parts[i], secret)
  {
    seq(|parts|, i requires 0 <= i < |parts| => Replace(parts[i], secret))
  }

  ghost predicate SplitsNowhere(parts: seq<string>, secret: string)
    requires secret != ""
  {
    forall i :: 0 <= i < |parts| ==> !Straddles(parts[i], Concat(parts[i + 1..]), secret)
  }

  lemma SplitsNowhereTail(parts: seq<string>, secret: string)
    requires parts != [] && secret != ""
    ensures SplitsNowhere(parts, secret)
            <==> !Straddles(parts[0], Concat(parts[1..]), secret) && SplitsNowhere(parts[1..], secret)
  {
    hide Straddles, Concat;
    var tail := parts[1..];
    assert forall i :: 0 <= i < |tail| ==> tail[i] == parts[i + 1] && tail[i + 1..] == parts[i + 2..];
    if SplitsNowhere(tail, secret) && !Straddles(parts[0], Concat(tail), secret) {
      forall i | 0 <= i < |parts|
        ensures !Straddles(parts[i], Concat(parts[i + 1..]), secret)
      {
        if i > 0 {
          assert tail[i - 1] == parts[i] && tail[i - 1 + 1..] == parts[i + 1..];
        }
      }
    }
  }

  /** Masking a secret part by part is masking the whole exactly when no part ends inside an
      occurrence that would be replaced. */
  lemma {:induction false} PartsHarmlessIff(parts: seq<string>, secret: string)
    requires secret != ""
    ensures SplitsNowhere(parts, secret) ==> Concat(ReplaceEach(parts, secret)) == Replace(Concat(parts), secret)
    ensures secret[0] != '*' && !SplitsNowhere(parts, secret) ==>
              Concat(ReplaceEach(parts, secret)) != Replace(Concat(parts), secret)
  {
    if parts != [] {
      var head, tail := parts[0], parts[1..];
      assert ReplaceEach(parts, secret)[1..] == ReplaceEach(tail, secret);
      SplitsNowhereTail(parts, secret);
      PartsHarmlessIff(tail, secret);
      var rest := Concat(tail);
      hide Straddles, SplitsNowhere, Replace;
      if !Straddles(head, rest, secret) {
        UnsplitCut(head, rest, secret);
        SameRest(Replace(head, secret), Concat(ReplaceEach(tail, secret)), Replace(rest, secret));
      } else if secret[0] != '*' {
        SplitCut(head, rest, secret, Concat(ReplaceEach(tail, secret)));
      }
    }
  }

  ghost predicate NonEmpty(secrets: seq<string>) {
    forall i :: 0 <= i < |secrets| ==> secrets[i] != ""
  }

  /** No part ends inside a secret, as it reads once the secrets before it are masked. */
  ghost predicate Unsplit(parts: seq<string>, secrets: seq<string>)
    requires NonEmpty(secrets)
  {
    forall k :: 0 <= k < |secrets| ==> SplitsNowhere(MaskEach(parts, secrets[..k]), secrets[k])
  }

  /** Masking the parts is masking the whole, up to and including the `k`-th secret. */
  ghost predicate CommutesAt(parts: seq<string>, secrets: seq<string>, k: nat)
    requires k <= |secrets|
  {
    Concat(MaskEach(parts, secrets[..k])) == MaskAll(Concat(parts), secrets[..k])
  }

  lemma CommutesNext(parts: seq<string>, secrets: seq<string>, k: nat)
    requires NonEmpty(secrets) && k < |secrets| && CommutesAt(parts, secrets, k)
    ensures SplitsNowhere(MaskEach(parts, secrets[..k]), secrets[k]) ==> CommutesAt(parts, secrets, k + 1)
    ensures secrets[k][0] != '*' && !SplitsNowhere(MaskEach(parts, secrets[..k]), secrets[k]) ==>
              !CommutesAt(parts, secrets, k + 1)
  {
    var before, last := secrets[..k], secrets[k];
    assert secrets[..k + 1][..k] == before;
    assert MaskEach(parts, secrets[..k + 1]) == ReplaceEach(MaskEach(parts, before), last);
    PartsHarmlessIff(MaskEach(parts, before), last);
  }

  lemma CommutesFirst(parts: seq<string>, secrets: seq<string>)
    ensures CommutesAt(parts, secrets, 0)
  {
    assert secrets[..0] == [] && MaskEach(parts, []) == parts;
  }

  lemma {:induction false} CommutesUpTo(parts: seq<string>, secrets: seq<string>, k: nat)
    requires NonEmpty(secrets) && k <= |secrets| && Unsplit(parts, secrets)
    ensures CommutesAt(parts, secrets, k)
  {
    hide CommutesAt, SplitsNowhere;
    CommutesFirst(parts, secrets);
    if k > 0 {
      CommutesUpTo(parts, secrets, k - 1);
      CommutesNext(parts, secrets, k - 1);
    }
  }

  /** For any list of secrets, masking part by part is masking the whole if no part ends inside
      a secret. */
  lemma MaskCommutesUnsplit(parts: seq<string>, secrets: seq<string>)
    requires NonEmpty(secrets) && Unsplit(parts, secrets)
    ensures Concat(MaskEach(parts, secrets)) == MaskAll(Concat(parts), secrets)
  {
    CommutesUpTo(parts, secrets, |secrets|);
    assert secrets[..|secrets|] == secrets;
  }

  ghost predicate NoneStarred(secrets: seq<string>)
    requires NonEmpty(secrets)
  {
    forall i :: 0 <= i < |secrets| ==> secrets[i][0] != '*'
  }

  /** It is so after each secret of the list if no part ends inside a secret, and only then if no
      secret begins with `*`. */
  lemma MaskCommutesIff(parts: seq<string>, secrets: seq<string>)
    requires NonEmpty(secrets)
    ensures Unsplit(parts, secrets) ==> forall k :: 0 <= k <= |secrets| ==> CommutesAt(parts, secrets, k)
    ensures NoneStarred(secrets) ==>
              ((forall k :: 0 <= k <= |secrets| ==> CommutesAt(parts, secrets, k)) <==> Unsplit(parts, secrets))
    ensures NoneStarred(secrets) && |secrets| == 1 ==>
              (Concat(MaskEach(parts, secrets)) == MaskAll(Concat(parts), secrets) <==> Unsplit(parts, secrets))
  {
    hide SplitsNowhere;
    CommutesFirst(parts, secrets);
    if Unsplit(parts, secrets) {
      forall k | 0 <= k <= |secrets|
        ensures CommutesAt(parts, secrets, k)
      {
        CommutesUpTo(parts, secrets, k);
      }
    } else {
      var k :| 0 <= k < |secrets| && !SplitsNowhere(MaskEach(parts, secrets[..k]), secrets[k]);
      if CommutesAt(parts, secrets, k) {
        CommutesNext(parts, secrets, k);
      }
    }
    assert secrets[..|secrets|] == secrets;
    assert CommutesAt(parts, secrets, |secrets|) <==> Concat(MaskEach(parts, secrets)) == MaskAll(Concat(parts), secrets);
  }

  lemma MaskSnoc(text: string, secrets: seq<string>, secret: string)
    requires secret != ""
    ensures MaskAll(text, secrets + [secret]) == Replace(MaskAll(text, secrets), secret)
  {
    assert (secrets + [secret])[..|secrets|] == secrets;
  }

  function FourSecrets(): seq<string> {
    ["ab"] + ["qa"] + ["b"] + ["q"]
  }

  lemma MaskFour(text: string)
    ensures MaskAll(text, FourSecrets()) == Replace(Replace(Replace(Replace(text, "ab"), "qa"), "b"), "q")
  {
    hide MaskAll, Replace;
    MaskSnoc(text, ["ab"] + ["qa"] + ["b"], "q");
    MaskSnoc(text, ["ab"] + ["qa"], "b");
    MaskSnoc(text, ["ab"], "qa");
    MaskSnoc(text, [], "ab");
    MaskNone(text);
    assert [] + ["ab"] == ["ab"];
  }

  lemma MaskNone(text: string)
    ensures MaskAll(text, []) == text
  {
  }

  lemma {:induction false} CharAbsent(text: string, secret: string)
    requires secret != "" && secret[0] !in text
    ensures Replace(text, secret) == text
  {
    if |text| >= |secret| {
      assert text[0] != secret[0];
      CharAbsent(text[1..], secret);
    }
  }

  lemma MaskedWhole()
    ensures Replace("qab", "ab") == "q***" && MaskAll("qab", FourSecrets()) == "******"
  {
    MaskFour("qab");
    hide MaskAll, FourSecrets;
    QabMasked();
    CharAbsent("***", "qa");
    assert "q***"[1..] == "***" && Replace("q***", "qa") == "q***";
    CharAbsent("q***", "b");
    CharAbsent("***", "q");
  }

  lemma QabMasked()
    ensures Replace("qab", "ab") == "q***"
  {
    assert "qab"[1..] == "ab" && "ab"[2..] == "";
  }

  lemma MaskedParts()
    ensures Replace("qa", "ab") == "qa"
    ensures MaskAll("qa", FourSecrets()) == "***" && MaskAll("b", FourSecrets()) == "***"
  {
    hide MaskAll;
    MaskFour("qa");
    MaskFour("b");
    assert "qa"[2..] == "" && "qa"[1..] == "a" && Replace("qa", "ab") == "qa" && Replace("qa", "qa") == "***";
    CharAbsent("***", "b");
    CharAbsent("***", "q");
    CharAbsent("b", "ab");
    CharAbsent("b", "qa");
    assert "b"[1..] == "" && Replace("b", "b") == "***";
  }

  lemma FirstSplits(parts: seq<string>, secrets: seq<string>)
    requires NonEmpty(secrets) && secrets != []
    requires Concat(ReplaceEach(parts, secrets[0])) != Replace(Concat(parts), secrets[0])
    ensures !Unsplit(parts, secrets)
  {
    PartsHarmlessIff(parts, secrets[0]);
    assert secrets[..0] == [] && MaskEach(parts, []) == parts;
    hide SplitsNowhere;
  }

  lemma FourListed()
    ensures LongestFirst(FourSecrets()) && NonEmpty(FourSecrets()) && |FourSecrets()| == 4 && FourSecrets()[0] == "ab"
  {
    assert FourSecrets() == ["ab", "qa", "b", "q"];
  }

  lemma TwoParts(x: string, y: string, secret: string, secrets: seq<string>)
    requires secret != ""
    ensures Concat([x, y]) == x + y
    ensures Concat(ReplaceEach([x, y], secret)) == Replace(x, secret) + Replace(y, secret)
    ensures Concat(MaskEach([x, y], secrets)) == MaskAll(x, secrets) + MaskAll(y, secrets)
  {
    ConcatTwo(x, y);
    ConcatTwo(Replace(x, secret), Replace(y, secret));
    ConcatTwo(MaskAll(x, secrets), MaskAll(y, secrets));
    hide Replace, MaskAll, Concat;
    assert ReplaceEach([x, y], secret) == [Replace(x, secret), Replace(y, secret)];
    assert MaskEach([x, y], secrets) == [MaskAll(x, secrets), MaskAll(y, secrets)];
  }

  /** With several secrets a split can go unnoticed in the end: here the parts of the first one
      are masked as others of the list. */
  lemma SplitCanBeHidden()
    ensures var parts, secrets := ["qa", "b"], FourSecrets();
            && LongestFirst(secrets) && NonEmpty(secrets) && !Unsplit(parts, secrets)
            && Concat(MaskEach(parts, secrets)) == MaskAll(Concat(parts), secrets)
  {
    hide *;
    FourListed();
    MaskedWhole();
    MaskedParts();
    ReplaceShort("b", "ab");
    TwoParts("qa", "b", "ab", FourSecrets());
    assert "qa" + "b" == "qab";
    FirstSplits(["qa", "b"], FourSecrets());
  }

  lemma ConcatTwo(x: string, y: string)
    ensures Concat([x, y]) == x + y
  {
    assert [x, y][1..] == [y] && Concat([y]) == y + "";
  }

  /** Every cut but the last ends a line. */
  ghost predicate CutAtNewlines(cuts: seq<string>) {
    forall i :: 0 <= i < |cuts| - 1 ==> EndsLine(cuts[i])
  }

  lemma LinesUnsplit(parts: seq<string>, secrets: seq<string>)
    requires Printable(secrets) && CutAtNewlines(parts)
    ensures NonEmpty(secrets) && Unsplit(parts, secrets)
  {
    assert forall k :: 0 <= k < |secrets| ==> secrets[k] in secrets;
    forall k, i | 0 <= k < |secrets| && 0 <= i < |parts|
      ensures var masked := MaskEach(parts, secrets[..k]);
              !Straddles(masked[i], Concat(masked[i + 1..]), secrets[k])
    {
      var masked, secret := MaskEach(parts, secrets[..k]), secrets[k];
      assert forall s :: s in secrets[..k] ==> s in secrets;
      MaskEndsLine(parts[i], secrets[..k]);
      assert forall c :: c in secret[..|secret| - 1] ==> c in secret;
      LineUnsplit(masked[i], Concat(masked[i + 1..]), secret);
    }
  }

  /** Masking chunk by chunk is masking the whole output, when cuts fall at newlines. */
  lemma MaskCommutesWithCuts(cuts: seq<string>, secrets: seq<string>)
    requires Printable(secrets) && CutAtNewlines(cuts)
    ensures Concat(MaskEach(cuts, secrets)) == MaskAll(Concat(cuts), secrets)
  {
    LinesUnsplit(cuts, secrets);
    MaskCommutesUnsplit(cuts, secrets);
  }

  /** A secret printed between texts that no secret overlaps is masked whole, if the list is
      longest first. */
  lemma SecretInTextMasked(x: string, k: nat, y: string, secrets: seq<string>)
    requires LongestFirst(secrets) && k < |secrets| && forall s :: s in secrets ==> |s| > |MASK|
    requires NonEmpty(secrets) && Unsplit([x, secrets[k], y], secrets)
    ensures MaskAll(x + secrets[k] + y, secrets) == MaskAll(x, secrets) + MASK + MaskAll(y, secrets)
  {
    var parts := [x, secrets[k], y];
    MaskCommutesUnsplit(parts, secrets);
    WholeSecretMasked(secrets, k, |secrets|);
    assert secrets[..|secrets|] == secrets;
    ConcatThree(x, secrets[k], y);
    ConcatThree(MaskAll(x, secrets), MASK, MaskAll(y, secrets));
    assert MaskEach(parts, secrets) == [MaskAll(x, secrets), MASK, MaskAll(y, secrets)];
  }

  lemma ConcatThree(x: string, y: string, z: string)
    ensures Concat([x, y, z]) == x + y + z
  {
    ConcatTwo(y, z);
    assert [x, y, z][1..] == [y, z];
  }
}
