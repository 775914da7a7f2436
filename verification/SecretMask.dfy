/** Masking one secret (src/modules/actions/log.ts): what `split(secret).join(MASK)` leaves
    behind, and for which secrets it leaves nothing. */
module SecretMask {
  import opened Text

  const MASK := "***"

  // --- One secret ------------------------------------------------------------------

  /** Replaces the leftmost occurrences of a non-empty `secret`, scanning left to right. */
  function Replace(text: string, secret: string): (masked: string)
    requires secret != ""
  {
    if |text| < |secret| then text
    else if secret <= text then MASK + Replace(text[|secret|..], secret)
    else [text[0]] + Replace(text[1..], secret)
  }

  /** Splitting by the secret and joining with the mask is that replacement. */
  lemma {:induction false} SplitJoinReplaces(text: string, secret: string)
    requires secret != ""
    ensures Join(Split(text, secret), MASK) == Replace(text, secret)
  {
    if |text| < |secret| {
    } else if secret <= text {
      SplitJoinReplaces(text[|secret|..], secret);
      JoinCons("", Split(text[|secret|..], secret), MASK);
    } else {
      SplitJoinReplaces(text[1..], secret);
      JoinPrepend(text[0], Split(text[1..], secret), MASK);
    }
  }

  /** Between the characters, as `text.split("").join(MASK)` does. */
  function MaskBetween(text: string): string {
    if |text| <= 1 then text else [text[0]] + MASK + MaskBetween(text[1..])
  }

  function Characters(text: string): (characters: seq<string>)
    ensures |characters| == |text| && forall i :: 0 <= i < |text| ==> characters[i] == [text[i]]
  {
    seq(|text|, i requires 0 <= i < |text| => [text[i]])
  }

  lemma {:induction false} BetweenJoins(text: string)
    requires text != ""
    ensures MaskBetween(text) == Join(Characters(text), MASK)
  {
    if |text| > 1 {
      BetweenJoins(text[1..]);
      assert Characters(text)[1..] == Characters(text[1..]);
      hide Join;
      JoinCons([text[0]], Characters(text[1..]), MASK);
      assert Characters(text) == [[text[0]]] + Characters(text[1..]);
    }
  }

  function MaskOne(text: string, secret: string): string {
    if secret == "" then MaskBetween(text) else Replace(text, secret)
  }

  // --- When a mask can rebuild a secret --------------------------------------------

  /** The secret can't overlap an inserted mask. */
  predicate Safe(secret: string) {
    && secret != ""
    && secret[0] != '*'
    && secret[|secret| - 1] != '*'
    && !HasMask(secret)
  }

  predicate HasMask(text: string) {
    exists i :: 0 <= i <= |text| - 3 && IsMaskAt(text, i)
  }

  predicate IsMaskAt(text: string, i: nat)
    requires i + 3 <= |text|
  {
    text[i] == '*' && text[i + 1] == '*' && text[i + 2] == '*'
  }

  lemma StartsInMask(part: string, rest: string)
    requires part != "" && part <= MASK + rest && part[|part| - 1] != '*'
    ensures HasMask(part)
  {
    assert forall i :: 0 <= i < |part| ==> part[i] == (MASK + rest)[i];
    assert IsMaskAt(part, 0);
  }

  lemma HasMaskTail(part: string)
    requires part != "" && HasMask(part[1..])
    ensures HasMask(part)
  {
    var i :| 0 <= i <= |part[1..]| - 3 && IsMaskAt(part[1..], i);
    assert IsMaskAt(part, i + 1);
  }

  /** A text without mask inside or star at its end can only start a masked output by
      starting the text itself. */
  lemma {:induction false} StartSurvives(text: string, secret: string, part: string)
    requires secret != "" && part <= Replace(text, secret)
    requires part != "" ==> part[|part| - 1] != '*' && !HasMask(part)
    ensures part <= text
  {
    hide HasMask;
    if part == "" || |text| < |secret| {
    } else if secret <= text {
      StartsInMask(part, Replace(text[|secret|..], secret));
    } else {
      assert part[0] == text[0];
      assert part[1..] <= Replace(text[1..], secret);
      if HasMask(part[1..]) {
        HasMaskTail(part);
      }
      StartSurvives(text[1..], secret, part[1..]);
      assert part == [part[0]] + part[1..] && text == [text[0]] + text[1..];
    }
  }

  lemma InTail(head: string, tail: string, part: string, i: nat)
    requires OccursAt(head + tail, part, i)
    ensures i >= |head| ==> OccursAt(tail, part, i - |head|)
    ensures i < |head| && part != "" ==> part[0] == head[i]
  {
    if i >= |head| {
      assert (head + tail)[i..i + |part|] == tail[i - |head|..i - |head| + |part|];
    } else if part != "" {
      assert (head + tail)[i..i + |part|][0] == head[i];
    }
  }

  lemma AtEnd(head: string, part: string)
    ensures OccursAt(head + part, part, |head|)
  {
    assert (head + part)[|head|..|head| + |part|] == part;
  }

  lemma AtStart(text: string, part: string)
    ensures OccursAt(text, part, 0) <==> part <= text
  {
    if part <= text {
      assert text[0..|part|] == part;
    }
  }

  lemma ReplaceCases(text: string, secret: string)
    requires secret != ""
    ensures |text| < |secret| ==> Replace(text, secret) == text
    ensures secret <= text ==> Replace(text, secret) == MASK + Replace(text[|secret|..], secret)
    ensures |text| >= |secret| && !(secret <= text) ==> Replace(text, secret) == [text[0]] + Replace(text[1..], secret)
  {
  }

  lemma BehindMask(tail: string, other: string, i: nat)
    requires Safe(other) && OccursAt(MASK + tail, other, i)
    ensures i >= |MASK| && OccursAt(tail, other, i - |MASK|)
  {
    hide HasMask;
    InTail(MASK, tail, other, i);
  }

  lemma FirstSurvives(text: string, secret: string, other: string)
    requires secret != "" && Safe(other) && OccursAt(Replace(text, secret), other, 0)
    ensures Contains(text, other)
  {
    hide OccursAt, Contains, HasMask, Replace;
    AtStart(Replace(text, secret), other);
    StartSurvives(text, secret, other);
    AtStart(text, other);
    OccursContains(text, other, 0);
  }

  /** What is found after a replacement, past its first step, is found after that step. */
  lemma StepBack(text: string, secret: string, other: string, i: nat) returns (rest: string, j: nat)
    requires secret != "" && Safe(other) && |text| >= |secret|
    requires OccursAt(Replace(text, secret), other, i) && (secret <= text || i > 0)
    ensures |rest| < |text| && OccursAt(Replace(rest, secret), other, j)
    ensures Contains(rest, other) ==> Contains(text, other)
  {
    hide OccursAt, Contains, Safe, Replace;
    ReplaceCases(text, secret);
    if secret <= text {
      rest := text[|secret|..];
      BehindMask(Replace(rest, secret), other, i);
      j := i - |MASK|;
      if Contains(rest, other) {
        ContainsDrop(text, other, |secret|);
      }
    } else {
      rest, j := text[1..], i - 1;
      InTailOnly([text[0]], Replace(rest, secret), other, i);
      if Contains(rest, other) {
        ContainsDrop(text, other, 1);
      }
    }
  }

  lemma ShortKept(text: string, secret: string)
    requires secret != "" && |text| < |secret|
    ensures Replace(text, secret) == text
  {
  }

  /** A safe secret found after masking something else was there before. */
  lemma {:induction false} NeverRecreated(text: string, secret: string, other: string, i: nat)
    requires secret != "" && Safe(other)
    requires OccursAt(Replace(text, secret), other, i)
    ensures Contains(text, other)
    decreases |text|
  {
    hide OccursAt, Contains, Safe, Replace;
    if |text| < |secret| {
      ShortKept(text, secret);
      OccursContains(text, other, i);
    } else if secret <= text || i > 0 {
      var rest, j := StepBack(text, secret, other, i);
      NeverRecreated(rest, secret, other, j);
    } else {
      FirstSurvives(text, secret, other);
    }
  }

  /** Nor do masks between the characters rebuild it. */
  lemma {:induction false} NotRebuiltBetween(text: string, other: string, i: nat)
    requires Safe(other) && OccursAt(MaskBetween(text), other, i)
    ensures Contains(text, other)
  {
    hide OccursAt, Contains, HasMask;
    if |text| <= 1 {
      OccursContains(text, other, i);
    } else {
      var head, rest := [text[0]], MaskBetween(text[1..]);
      assert MaskBetween(text) == head + (MASK + rest);
      InTail(head, MASK + rest, other, i);
      if i > 0 {
        InTail(MASK, rest, other, i - 1);
        NotRebuiltBetween(text[1..], other, i - 4);
        ContainsDrop(text, other, 1);
      } else {
        AtStart(head + (MASK + rest), other);
        if |other| > 1 {
          assert other[1..] <= MASK + rest;
          StartsInMask(other[1..], rest);
          HasMaskTail(other);
        }
        assert other <= text;
        AtStart(text, other);
        OccursContains(text, other, 0);
      }
    }
  }

  lemma OccursContains(text: string, part: string, i: nat)
    requires OccursAt(text, part, i)
    ensures Contains(text, part)
  {
  }

  /** A safe secret is gone after its own replacement. */
  lemma {:induction false} Removed(text: string, secret: string, i: nat)
    requires Safe(secret)
    ensures !OccursAt(Replace(text, secret), secret, i)
    decreases |text|
  {
    assert secret != "";
    hide OccursAt, Contains, Safe, Replace;
    if |text| < |secret| {
      ShortKept(text, secret);
      TooShort(text, secret, i);
    } else if OccursAt(Replace(text, secret), secret, i) {
      if secret <= text || i > 0 {
        var rest, j := StepBack(text, secret, secret, i);
        Removed(rest, secret, j);
      } else {
        FirstIsGone(text, secret);
      }
    }
  }

  lemma TooShort(text: string, secret: string, i: nat)
    requires |text| < |secret|
    ensures !OccursAt(text, secret, i)
  {
  }

  lemma FirstIsGone(text: string, secret: string)
    requires Safe(secret) && OccursAt(Replace(text, secret), secret, 0)
    ensures secret <= text
  {
    hide OccursAt, HasMask, Replace;
    AtStart(Replace(text, secret), secret);
    StartSurvives(text, secret, secret);
  }

  lemma InTailOnly(head: string, tail: string, part: string, i: nat)
    requires i >= |head|
    ensures OccursAt(head + tail, part, i) ==> OccursAt(tail, part, i - |head|)
  {
    if OccursAt(head + tail, part, i) {
      InTail(head, tail, part, i);
    }
  }

  /** A text whose only full occurrence of the secret is its first one is masked there. */
  lemma {:induction false} FirstOccurrence(text: string, secret: string, p: nat)
    requires secret != "" && OccursAt(text, secret, p) && |text| - p - |secret| < |secret|
    requires p + |secret| <= |text|
    requires forall i :: 0 <= i < p ==> !OccursAt(text, secret, i)
    ensures Replace(text, secret) == text[..p] + (MASK + text[p + |secret|..])
  {
    if p == 0 {
      AtStart(text, secret);
      MaskedAtStart(text, secret);
    } else {
      NotYet(text, secret, p);
      FirstOccurrence(text[1..], secret, p - 1);
      hide OccursAt, Replace;
      Prepend(text, p, MASK, |secret|);
    }
  }

  lemma NotYet(text: string, secret: string, p: nat)
    requires secret != "" && OccursAt(text, secret, p) && p > 0
    requires forall i :: 0 <= i < p ==> !OccursAt(text, secret, i)
    ensures Replace(text, secret) == [text[0]] + Replace(text[1..], secret)
    ensures OccursAt(text[1..], secret, p - 1)
    ensures forall i :: 0 <= i < p - 1 ==> !OccursAt(text[1..], secret, i)
  {
    AtStart(text, secret);
    assert !OccursAt(text, secret, 0);
    OccursLater(text, secret, p);
    forall i | 0 <= i < p - 1
      ensures !OccursAt(text[1..], secret, i)
    {
      assert !OccursAt(text, secret, i + 1);
      OccursEarlier(text, secret, i);
    }
  }

  lemma MaskedAtStart(text: string, secret: string)
    requires secret != "" && secret <= text && |text| < 2 * |secret|
    ensures Replace(text, secret) == text[..0] + (MASK + text[|secret|..])
  {
  }

  lemma OccursEarlier(text: string, part: string, i: nat)
    requires text != ""
    ensures OccursAt(text[1..], part, i) ==> OccursAt(text, part, i + 1)
  {
    if OccursAt(text[1..], part, i) {
      assert text[i + 1..i + 1 + |part|] == text[1..][i..i + |part|];
    }
  }

  lemma Prepend(text: string, p: nat, mask: string, n: nat)
    requires 0 < p && p + n <= |text|
    ensures [text[0]] + (text[1..][..p - 1] + (mask + text[1..][p - 1 + n..])) == text[..p] + (mask + text[p + n..])
  {
  }

  /** A text whose masking leaves an unsafe secret readable. */
  function Unmaskable(secret: string): string
    requires secret != "" && !Safe(secret)
  {
    if secret[0] == '*' then secret + secret[1..]
    else if secret[|secret| - 1] == '*' then secret[..|secret| - 1] + secret
    else
      var p := FirstMask(secret, 0);
      secret[..p] + secret + secret[p + 3..]
  }

  function FirstMask(text: string, from: nat): (p: nat)
    requires exists i :: from <= i <= |text| - 3 && IsMaskAt(text, i)
    ensures from <= p <= |text| - 3 && IsMaskAt(text, p)
    ensures forall i :: from <= i < p ==> !IsMaskAt(text, i)
    decreases |text| - from
  {
    if IsMaskAt(text, from) then from else FirstMask(text, from + 1)
  }

  /** `text` is a prefix of the secret, the secret itself, and a short rest. */
  ghost predicate Sandwich(text: string, secret: string, p: nat) {
    && 0 < |secret| && p < |secret|
    && p + |secret| <= |text| < p + 2 * |secret|
    && (forall k :: 0 <= k < p ==> text[k] == secret[k])
    && text[p..p + |secret|] == secret
  }

  /** What an occurrence starting before the intended one would say about the secret. */
  lemma Overlap(text: string, secret: string, p: nat, i: nat, d: nat)
    requires Sandwich(text, secret, p) && i < p && OccursAt(text, secret, i) && p + d < |secret|
    ensures secret[0] == secret[i] && secret[p + d] == secret[i + d]
  {
    var found := text[i..i + |secret|];
    assert found[0] == text[i];
    assert found[p + d] == text[i + p + d] == text[p..p + |secret|][i + d];
  }

  lemma SandwichMasked(text: string, secret: string, p: nat)
    requires Sandwich(text, secret, p)
    requires forall i :: 0 <= i < p ==> !OccursAt(text, secret, i)
    ensures Replace(text, secret) == text[..p] + (MASK + text[p + |secret|..])
  {
    assert OccursAt(text, secret, p);
    FirstOccurrence(text, secret, p);
  }

  lemma StarFirstStays(secret: string)
    requires secret != "" && secret[0] == '*'
    ensures OccursAt(Replace(secret + secret[1..], secret), secret, 2)
  {
    hide Replace, OccursAt;
    var text := secret + secret[1..];
    SandwichMasked(text, secret, 0);
    assert text[..0] + (MASK + text[|secret|..]) == "**" + secret by {
      hide Sandwich;
    }
    AtEnd("**", secret);
  }

  lemma StarLastStays(secret: string)
    requires |secret| > 1 && secret[0] != '*' && secret[|secret| - 1] == '*'
    ensures OccursAt(Replace(secret[..|secret| - 1] + secret, secret), secret, 0)
  {
    hide Replace, OccursAt;
    var p := |secret| - 1;
    var text := secret[..p] + secret;
    forall i | 0 <= i < p
      ensures !OccursAt(text, secret, i)
    {
      if OccursAt(text, secret, i) {
        Overlap(text, secret, p, i, 0);
      }
    }
    SandwichMasked(text, secret, p);
    assert text[..p] + (MASK + text[p + |secret|..]) == secret + "**" by {
      hide Sandwich;
    }
    AtStart(secret + "**", secret);
  }

  lemma MaskInsideStays(secret: string, p: nat)
    requires p + 3 <= |secret| && IsMaskAt(secret, p)
    requires forall i :: 0 <= i < p ==> !IsMaskAt(secret, i)
    ensures OccursAt(Replace(secret[..p] + secret + secret[p + 3..], secret), secret, 0)
  {
    hide Replace, OccursAt;
    var text := secret[..p] + secret + secret[p + 3..];
    MaskInsideSandwich(secret, p);
    forall i | 0 <= i < p
      ensures !OccursAt(text, secret, i)
    {
      MaskOverlap(text, secret, p, i);
    }
    SandwichMasked(text, secret, p);
    AtStart(secret, secret);
  }

  lemma MaskInsideSandwich(secret: string, p: nat)
    requires p + 3 <= |secret| && IsMaskAt(secret, p)
    ensures var text := secret[..p] + secret + secret[p + 3..];
            Sandwich(text, secret, p) && text[..p] + (MASK + text[p + |secret|..]) == secret
  {
    var text := secret[..p] + secret + secret[p + 3..];
    assert text[..p] == secret[..p] && text[p + |secret|..] == secret[p + 3..];
  }

  lemma MaskOverlap(text: string, secret: string, p: nat, i: nat)
    requires Sandwich(text, secret, p) && i < p
    requires p + 3 <= |secret| && IsMaskAt(secret, p) && !IsMaskAt(secret, i)
    ensures !OccursAt(text, secret, i)
  {
    hide OccursAt;
    if OccursAt(text, secret, i) {
      Overlap(text, secret, p, i, 0);
      Overlap(text, secret, p, i, 1);
      Overlap(text, secret, p, i, 2);
    }
  }

  lemma UnmaskableStays(secret: string)
    requires secret != "" && !Safe(secret)
    ensures Contains(Replace(Unmaskable(secret), secret), secret)
  {
    if secret[0] == '*' {
      StarFirstStays(secret);
    } else if secret[|secret| - 1] == '*' {
      StarLastStays(secret);
    } else {
      MaskInsideStays(secret, FirstMask(secret, 0));
    }
  }

  /** Masking a secret removes it from every text exactly when the secret is safe. */
  lemma MaskRemovesIffSafe(secret: string)
    ensures (forall text :: !Contains(MaskOne(text, secret), secret)) <==> Safe(secret)
  {
    if Safe(secret) {
      forall text
        ensures !Contains(MaskOne(text, secret), secret)
      {
        forall i: nat
          ensures !OccursAt(MaskOne(text, secret), secret, i)
        {
          Removed(text, secret, i);
        }
      }
    } else if secret == "" {
      assert OccursAt(MaskOne("", ""), "", 0);
      assert Contains(MaskOne("", ""), "");
    } else {
      UnmaskableStays(secret);
      assert Contains(MaskOne(Unmaskable(secret), secret), secret);
    }
  }
}
