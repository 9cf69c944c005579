/** Which texts name a risk mode (internal/risk/types.go). */
module ModeTexts {
  import opened Wrappers
  import opened Risk

  ghost predicate Gap(c: char) {
    c == ' ' || 9 <= c as int <= 13
  }

  ghost predicate AllGaps(text: string) {
    forall i | 0 <= i < |text| :: Gap(text[i])
  }

  ghost predicate SameButCase(text: string, name: string) {
    && |text| == |name|
    && forall i | 0 <= i < |text| ::
         if 'A' <= text[i] <= 'Z' then name[i] as int == text[i] as int + 32 else name[i] == text[i]
  }

  /** The stretch of a text from `i` to `j` is the name of a mode in any case, with blanks around it. */
  ghost predicate NamesAt(text: string, name: string, i: nat, j: nat) {
    i <= j <= |text| && AllGaps(text[..i]) && SameButCase(text[i..j], name) && AllGaps(text[j..])
  }

  lemma {:induction false} TrimmedLeft(text: string) returns (i: nat)
    ensures i <= |text| && TrimLeft(text) == text[i..] && AllGaps(text[..i]) && (i < |text| ==> !Gap(text[i]))
  {
    i := 0;
    if text != [] && IsSpace(text[0]) {
      var tail := text[1..];
      var k := TrimmedLeft(tail);
      i := k + 1;
      assert text[i..] == tail[k..] && text[..i] == [text[0]] + tail[..k];
    }
  }

  lemma {:induction false} TrimmedRight(text: string) returns (j: nat)
    ensures j <= |text| && TrimRight(text) == text[..j] && AllGaps(text[j..]) && (j > 0 ==> !Gap(text[j - 1]))
  {
    j := |text|;
    if text != [] && IsSpace(text[|text| - 1]) {
      var front := text[..|text| - 1];
      j := TrimmedRight(front);
      assert text[..j] == front[..j] && text[j..] == front[j..] + [text[|text| - 1]];
    }
  }

  lemma LowerIff(text: string, name: string)
    ensures Lower(text) == name <==> SameButCase(text, name)
  {
    if SameButCase(text, name) {
      assert forall i | 0 <= i < |text| :: Lower(text)[i] == name[i];
    }
  }

  /** The accepted texts are those that name one of the three modes, and the mode accepted is the one
      named. */
  lemma AcceptedIffNamed(text: string, name: string)
    requires name in ["conservative", "balanced", "aggressive"]
    ensures ParseMode(text) == Some(name) <==> exists i, j :: NamesAt(text, name, i, j)
  {
    hide TrimLeft, TrimRight, Lower;
    var i := TrimmedLeft(text);
    var left := text[i..];
    var k := TrimmedRight(left);
    var core := text[i..i + k];
    assert left[..k] == core && left[k..] == text[i + k..];
    LowerIff(core, name);
    assert Lower(core) == name <==> NamesAt(text, name, i, i + k);
    if x, y :| NamesAt(text, name, x, y) {
      SameStretch(text, name, i, i + k, x, y);
    }
  }

  lemma NotGapEnds(text: string, name: string, x: nat, y: nat)
    requires name in ["conservative", "balanced", "aggressive"] && NamesAt(text, name, x, y)
    ensures x < y && !Gap(text[x]) && !Gap(text[y - 1])
  {
    var core := text[x..y];
    assert |name| > 0 && !Gap(name[0]) && !Gap(name[|name| - 1]);
    assert core[0] == text[x] && core[|core| - 1] == text[y - 1];
  }

  /** Blanks taken off both ends as far as they go leave the one stretch that can be a name. */
  lemma SameStretch(text: string, name: string, i: nat, j: nat, x: nat, y: nat)
    requires name in ["conservative", "balanced", "aggressive"] && NamesAt(text, name, x, y)
    requires i <= j <= |text| && AllGaps(text[..i]) && AllGaps(text[j..])
    requires (i < |text| ==> !Gap(text[i])) && (j > i ==> !Gap(text[j - 1]))
    ensures i == x && j == y
  {
    NotGapEnds(text, name, x, y);
    hide SameButCase;
    GapsAround(text, i, j);
    GapsAround(text, x, y);
  }

  lemma GapsAround(text: string, i: nat, j: nat)
    requires i <= |text| && j <= |text| && AllGaps(text[..i]) && AllGaps(text[j..])
    ensures forall k | 0 <= k < i || j <= k < |text| :: Gap(text[k])
  {
    forall k | 0 <= k < i || j <= k < |text| ensures Gap(text[k]) {
      assert k < i ==> text[..i][k] == text[k];
      assert j <= k ==> text[j..][k - j] == text[k];
    }
  }
}
