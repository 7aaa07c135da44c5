/** The key normaliser: `normalize_key` in schedule_logic.py. */
module Keys {
  import opened Strings
  import opened Cells

  const FullwidthHyphenMinus: char := '\U{FF0D}'
  const ProlongedSoundMark: char := '\U{30FC}'
  const MinusSign: char := '\U{2212}'

  /** `s.replace(x, y)` for single characters. */
  function Replace(s: string, x: char, y: char): (r: string) {
    seq(|s|, i requires 0 <= i < |s| => if s[i] == x then y else s[i])
  }

  /** The three look-alike dashes become an ASCII hyphen-minus. */
  predicate IsLookAlikeDash(c: char) {
    c == FullwidthHyphenMinus || c == ProlongedSoundMark || c == MinusSign
  }

  /** The three chained `replace` calls of `normalize_key`. */
  function UnifyDashes(s: string): (r: string) {
    Replace(Replace(Replace(s, FullwidthHyphenMinus, '-'), ProlongedSoundMark, '-'), MinusSign, '-')
  }

  /** Each look-alike dash becomes `-`; every other character stays. */
  lemma UnifyDashesChars(s: string)
    ensures |UnifyDashes(s)| == |s|
    ensures forall i :: 0 <= i < |s| ==>
      UnifyDashes(s)[i] == if IsLookAlikeDash(s[i]) then '-' else s[i]
  {
  }

  /** `normalize_key` on text: strip, then unify the dashes. */
  function NormalizeText(s: string): (res: string) {
    UnifyDashes(Strip(s))
  }

  /** `normalize_key(val)`: `None` becomes `""`; anything else is rendered
      with `str`, stripped, and has its dashes unified. */
  function NormalizeKey(v: Cell): (res: string) {
    if v == Empty then "" else NormalizeText(CellText(v))
  }

  /** A normalized key has no surrounding whitespace and no look-alike
      dash; character for character it is the stripped text of the cell
      with each dash replaced by `-`, and `None` gives the empty key. */
  lemma NormalizeKeyShape(v: Cell)
    ensures var r := NormalizeKey(v);
      && (v == Empty ==> r == "")
      && Trimmed(r)
      && (forall i :: 0 <= i < |r| ==> !IsLookAlikeDash(r[i]))
      && (v != Empty ==> |r| == |Strip(CellText(v))|)
      && (v != Empty ==> forall i :: 0 <= i < |r| ==>
            r[i] == if IsLookAlikeDash(Strip(CellText(v))[i]) then '-' else Strip(CellText(v))[i])
  {
    if v != Empty {
      var m := Strip(CellText(v));
      StripShape(CellText(v));
      UnifyDashesChars(m);
      UnifyTrimmed(m);
    }
  }

  /** Normalising a normalised key changes nothing. */
  lemma NormalizeIdempotent(v: Cell)
    ensures NormalizeKey(Text(NormalizeKey(v))) == NormalizeKey(v)
  {
    var k := NormalizeKey(v);
    NormalizeKeyShape(v);
    StripTrimmed(k);
    UnifyDashesChars(k);
    assert UnifyDashes(k) == k;
  }

  /** The three dash variants and the ASCII hyphen all normalise alike. */
  lemma DashesUnified(pre: string, post: string, c: char)
    requires IsLookAlikeDash(c) || c == '-'
    ensures NormalizeText(pre + [c] + post) == NormalizeText(pre + "-" + post)
  {
    var s1 := pre + [c] + post;
    var s2 := pre + "-" + post;
    UnifyDashesChars(s1);
    UnifyDashesChars(s2);
    assert UnifyDashes(s1) == UnifyDashes(s2);
    StripUnifyCommute(s1);
    StripUnifyCommute(s2);
  }

  lemma UnifyAppend(x: string, y: string)
    ensures UnifyDashes(x + y) == UnifyDashes(x) + UnifyDashes(y)
  {
    var l := UnifyDashes(x + y);
    var rr := UnifyDashes(x) + UnifyDashes(y);
    UnifyDashesChars(x + y);
    UnifyDashesChars(x);
    UnifyDashesChars(y);
    assert |l| == |rr|;
    forall i | 0 <= i < |l| ensures l[i] == rr[i] {
      if i < |x| { assert (x + y)[i] == x[i]; } else { assert (x + y)[i] == y[i - |x|]; }
    }
  }

  lemma UnifySpaces(s: string)
    requires AllSpace(s)
    ensures UnifyDashes(s) == s
  {
    UnifyDashesChars(s);
  }

  lemma UnifyTrimmed(s: string)
    requires Trimmed(s)
    ensures Trimmed(UnifyDashes(s))
  {
    UnifyDashesChars(s);
  }

  /** Stripping and dash unification commute, because no dash is
      whitespace. */
  lemma StripUnifyCommute(s: string)
    ensures UnifyDashes(Strip(s)) == Strip(UnifyDashes(s))
  {
    StripParts(s);
    var a := SkipSpaceForward(s, 0);
    var m := Strip(s);
    var p := s[..a];
    var q := s[a + |m|..];
    UnifyAppend(p + m, q);
    UnifyAppend(p, m);
    UnifySpaces(p);
    UnifySpaces(q);
    StripShape(s);
    UnifyTrimmed(m);
    assert UnifyDashes(s) == p + UnifyDashes(m) + q;
    StripUnique(p, UnifyDashes(m), q);
  }
}
