/**
 * The mapping from a source font name to one of three base-14 PDF fonts, by
 * substring tests with a fixed precedence: "Bold" first, then "Italic" or
 * "Oblique", else the regular face.
 */
module FontMap {

  const Regular := "Helvetica"
  const Bold := "Helvetica-Bold"
  const Oblique := "Helvetica-Oblique"

  /** Python's `sub in s` on strings, scanning `s` from the left. */
  predicate Contains(s: string, sub: string)
    decreases |s|
  {
    |sub| <= |s| && (s[..|sub|] == sub || Contains(s[1..], sub))
  }

  /** `sub` occurs in `s` starting at offset `i`. */
  ghost predicate OccursAt(s: string, sub: string, i: int) {
    0 <= i <= |s| - |sub| && s[i..i + |sub|] == sub
  }

  /** The scan finds `sub` exactly when `sub` occurs somewhere in `s`. */
  lemma {:induction false} ContainsIffOccurs(s: string, sub: string)
    ensures Contains(s, sub) <==> exists i :: OccursAt(s, sub, i)
    decreases |s|
  {
    if |sub| <= |s| {
      if s[..|sub|] == sub {
        assert OccursAt(s, sub, 0);
        return;
      }
      ContainsIffOccurs(s[1..], sub);
      if Contains(s[1..], sub) {
        var i :| OccursAt(s[1..], sub, i);
        assert s[1..][i..i + |sub|] == s[i + 1..i + 1 + |sub|];
        assert OccursAt(s, sub, i + 1);
      } else {
        forall i | OccursAt(s, sub, i) ensures i > 0 && OccursAt(s[1..], sub, i - 1) {
          assert s[1..][i - 1..i - 1 + |sub|] == s[i..i + |sub|];
        }
      }
    }
  }

  /** The font name the script passes to `insert_text` for a span's font. */
  function StandardFont(raw: string): (r: string)
    ensures r == Regular || r == Bold || r == Oblique
  {
    if Contains(raw, "Bold") then Bold
    else if Contains(raw, "Italic") || Contains(raw, "Oblique") then Oblique
    else Regular
  }

  /**
   * The three outcomes, each with its exact condition: "Bold" wins over
   * "Italic" and "Oblique", which both give the oblique face, and a name
   * with none of the three words gives the regular face.
   */
  lemma StandardFontCases(raw: string)
    ensures StandardFont(raw) == Bold <==> Contains(raw, "Bold")
    ensures StandardFont(raw) == Oblique <==>
      !Contains(raw, "Bold") && (Contains(raw, "Italic") || Contains(raw, "Oblique"))
    ensures StandardFont(raw) == Regular <==>
      !Contains(raw, "Bold") && !Contains(raw, "Italic") && !Contains(raw, "Oblique")
  {
  }

  /** The precedence of the three outcomes. */
  function Weight(font: string): nat {
    if font == Bold then 2 else if font == Oblique then 1 else 0
  }

  lemma ContainsTransitive(s: string, mid: string, sub: string)
    requires Contains(s, mid) && Contains(mid, sub)
    ensures Contains(s, sub)
  {
    ContainsIffOccurs(s, mid);
    ContainsIffOccurs(mid, sub);
    ContainsIffOccurs(s, sub);
    var i :| OccursAt(s, mid, i);
    var j :| OccursAt(mid, sub, j);
    forall k | 0 <= k < |sub| ensures s[i + j + k] == sub[k] {
      assert mid[j + k] == sub[k];
      assert s[i + j + k] == s[i..i + |mid|][j + k];
    }
    assert s[i + j..i + j + |sub|] == sub;
    assert OccursAt(s, sub, i + j);
  }

  /**
   * A longer name never maps to a weaker face: if `name` occurs inside
   * `longer`, the style of `longer` is at least that of `name`.
   */
  lemma StyleNeverWeakensInLongerName(name: string, longer: string)
    requires Contains(longer, name)
    ensures Weight(StandardFont(name)) <= Weight(StandardFont(longer))
  {
    if Contains(name, "Bold") {
      ContainsTransitive(longer, name, "Bold");
    } else if Contains(name, "Italic") {
      ContainsTransitive(longer, name, "Italic");
    } else if Contains(name, "Oblique") {
      ContainsTransitive(longer, name, "Oblique");
    }
  }
}
