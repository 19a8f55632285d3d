/** Python 3's str.strip, str.lstrip and str.rstrip, as the reply normaliser
    uses them. The argument of these methods is a string whose characters form
    a SET: a character is removed from an end iff it occurs in the argument,
    whatever the order or multiplicity. Without an argument (None) they remove
    the characters str.isspace() accepts. */
module PyStr {

  /** str.isspace() on one character (CPython's _PyUnicode_IsWhitespace
      table, by code point): the characters the bare strip() removes. */
  predicate IsSpace(c: char)
  {
    var n := c as int;
    || 0x09 <= n <= 0x0D
    || 0x1C <= n <= 0x20
    || n == 0x85 || n == 0xA0 || n == 0x1680
    || 0x2000 <= n <= 0x200A
    || n == 0x2028 || n == 0x2029 || n == 0x202F || n == 0x205F || n == 0x3000
  }

  /** The argument of strip, lstrip and rstrip: the set of characters of the
      argument string, or None, which means whitespace. */
  datatype CharSet = Chars(members: set<char>) | Spaces

  /** Whether c is one of the characters cs says to remove. */
  predicate In(c: char, cs: CharSet)
  {
    match cs
    case Chars(members) => c in members
    case Spaces => IsSpace(c)
  }

  /** t is a contiguous piece of s: nothing inserted, nothing reordered. */
  ghost predicate IsSliceOf(t: string, s: string)
  {
    exists i, j :: 0 <= i <= j <= |s| && t == s[i..j]
  }

  /** s[i..j] is what stripping cs from both ends of s leaves: everything
      before i and from j on is in cs, and what is kept starts and ends with
      a character outside cs. */
  ghost predicate StripsTo(s: string, cs: CharSet, i: int, j: int)
  {
    && 0 <= i <= j <= |s|
    && (forall k :: 0 <= k < i ==> In(s[k], cs))
    && (forall k :: j <= k < |s| ==> In(s[k], cs))
    && (i < j ==> !In(s[i], cs) && !In(s[j - 1], cs))
  }

  /** CPython's left-to-right scan: the first index at or after i whose
      character is not in cs, or |s|. */
  function ScanRight(s: string, cs: CharSet, i: nat): (n: nat)
    requires i <= |s|
    ensures i <= n <= |s|
    ensures forall k :: i <= k < n ==> In(s[k], cs)
    ensures n == |s| || !In(s[n], cs)
    decreases |s| - i
  {
    if i < |s| && In(s[i], cs) then ScanRight(s, cs, i + 1) else i
  }

  /** CPython's right-to-left scan: the least index n at or before j such
      that every character of s[n..j] is in cs. */
  function ScanLeft(s: string, cs: CharSet, j: nat): (n: nat)
    requires j <= |s|
    ensures n <= j
    ensures forall k :: n <= k < j ==> In(s[k], cs)
    ensures n == 0 || !In(s[n - 1], cs)
  {
    if j > 0 && In(s[j - 1], cs) then ScanLeft(s, cs, j - 1) else j
  }

  /** How many characters lstrip removes: the length of the longest prefix
      of s made of characters in cs. */
  function LeadLen(s: string, cs: CharSet): (n: nat)
    ensures n <= |s|
    ensures forall k :: 0 <= k < n ==> In(s[k], cs)
    ensures n == |s| || !In(s[n], cs)
  {
    ScanRight(s, cs, 0)
  }

  /** How many characters rstrip keeps: the length of s without its longest
      suffix made of characters in cs. */
  function KeepLen(s: string, cs: CharSet): (n: nat)
    ensures n <= |s|
    ensures forall k :: n <= k < |s| ==> In(s[k], cs)
    ensures n == 0 || !In(s[n - 1], cs)
  {
    ScanLeft(s, cs, |s|)
  }

  /** s.lstrip(cs): the longest prefix of s made of characters in cs is
      removed; the right end is not touched. */
  function LStrip(s: string, cs: CharSet): (r: string)
    ensures |r| <= |s|
    ensures forall k :: 0 <= k < |r| ==> r[k] == s[|s| - |r| + k]
    ensures forall k :: 0 <= k < |s| - |r| ==> In(s[k], cs)
    ensures r == [] || !In(r[0], cs)
  {
    s[LeadLen(s, cs)..]
  }

  /** s.rstrip(cs): the longest suffix of s made of characters in cs is
      removed; the left end is not touched. */
  function RStrip(s: string, cs: CharSet): (r: string)
    ensures |r| <= |s|
    ensures forall k :: 0 <= k < |r| ==> r[k] == s[k]
    ensures forall k :: |r| <= k < |s| ==> In(s[k], cs)
    ensures r == [] || !In(r[|r| - 1], cs)
  {
    s[..KeepLen(s, cs)]
  }

  /** s.strip(cs): both ends stripped. The result is a slice of s that
      neither begins nor ends with a character of cs, and everything outside
      it is in cs. The right cut is computed over the whole string and then
      clamped to the left cut, which gives CPython's result (CPython stops its
      right-to-left scan at the left cut instead). */
  function Strip(s: string, cs: CharSet): (r: string)
    ensures |r| <= |s|
    ensures r == [] || (!In(r[0], cs) && !In(r[|r| - 1], cs))
  {
    var i, j := LeadLen(s, cs), KeepLen(s, cs);
    var j' := if j < i then i else j;
    s[i..j']
  }

  /** What strip cuts away from s is made of characters in cs: its result is
      s[i..j] for a cut meeting StripsTo. */
  lemma StripCuts(s: string, cs: CharSet)
    ensures exists i, j :: StripsTo(s, cs, i, j) && Strip(s, cs) == s[i..j]
  {
    var i, j := LeadLen(s, cs), KeepLen(s, cs);
    var j' := if j < i then i else j;
    assert StripsTo(s, cs, i, j');
  }

  /** The three properties LeadLen ensures determine it. */
  lemma LeadLenUnique(s: string, cs: CharSet, n: int)
    requires 0 <= n <= |s|
    requires forall k :: 0 <= k < n ==> In(s[k], cs)
    requires n == |s| || !In(s[n], cs)
    ensures LeadLen(s, cs) == n
  {
  }

  /** The three properties KeepLen ensures determine it. */
  lemma KeepLenUnique(s: string, cs: CharSet, n: int)
    requires 0 <= n <= |s|
    requires forall k :: n <= k < |s| ==> In(s[k], cs)
    requires n == 0 || !In(s[n - 1], cs)
    ensures KeepLen(s, cs) == n
  {
  }

  /** Any prefix of cs-characters that ends where a non-member starts (or at
      the end of s) is the one lstrip removes. */
  lemma LStripUnique(s: string, cs: CharSet, i: int)
    requires 0 <= i <= |s|
    requires forall k :: 0 <= k < i ==> In(s[k], cs)
    requires i == |s| || !In(s[i], cs)
    ensures LStrip(s, cs) == s[i..]
  {
    LeadLenUnique(s, cs, i);
  }

  /** The mirror image of LStripUnique for rstrip. */
  lemma RStripUnique(s: string, cs: CharSet, j: int)
    requires 0 <= j <= |s|
    requires forall k :: j <= k < |s| ==> In(s[k], cs)
    requires j == 0 || !In(s[j - 1], cs)
    ensures RStrip(s, cs) == s[..j]
  {
    KeepLenUnique(s, cs, j);
  }

  /** StripsTo determines strip's result: any cut meeting it is the one
      s.strip(cs) makes. */
  lemma StripUnique(s: string, cs: CharSet, i: int, j: int)
    requires StripsTo(s, cs, i, j)
    ensures Strip(s, cs) == s[i..j]
  {
    if i < j {
      LeadLenUnique(s, cs, i);
      KeepLenUnique(s, cs, j);
    } else {
      LeadLenUnique(s, cs, |s|);
      assert Strip(s, cs) == [];
    }
  }

  /** Stripping the right end and then the left end gives strip's result. */
  lemma StripEitherOrder(s: string, cs: CharSet)
    ensures Strip(s, cs) == LStrip(RStrip(s, cs), cs)
  {
    var i, j := LeadLen(s, cs), KeepLen(s, cs);
    var right := s[..j];
    if i < |s| {
      forall k | 0 <= k < i ensures In(right[k], cs) {
        assert right[k] == s[k];
      }
      assert right[i] == s[i];
      LeadLenUnique(right, cs, i);
      assert right[i..] == s[i..j];
    } else {
      KeepLenUnique(s, cs, 0);
    }
  }

  /** Stripping the left end and then the right end gives strip's result too. */
  lemma StripOtherOrder(s: string, cs: CharSet)
    ensures Strip(s, cs) == RStrip(LStrip(s, cs), cs)
  {
    var i, j := LeadLen(s, cs), KeepLen(s, cs);
    if i < |s| {
      assert i < j;
      KeepLenOfSuffix(s, cs, i);
      assert s[i..][..j - i] == s[i..j];
    } else {
      KeepLenUnique(s[i..], cs, 0);
    }
  }

  /** Cutting characters off the left that rstrip keeps does not move its
      right cut. */
  lemma KeepLenOfSuffix(s: string, cs: CharSet, i: int)
    requires 0 <= i <= KeepLen(s, cs)
    ensures KeepLen(s[i..], cs) == KeepLen(s, cs) - i
  {
    var j, l := KeepLen(s, cs), s[i..];
    forall k | j - i <= k < |l| ensures In(l[k], cs) {
      assert l[k] == s[i + k];
    }
    assert j - i == 0 || l[j - i - 1] == s[j - 1];
    KeepLenUnique(l, cs, j - i);
  }

  /** If lstrip removes nothing, s does not begin with a character of cs
      and comes back unchanged at both ends. */
  lemma LStripKeepsAll(s: string, cs: CharSet)
    requires s != [] && |LStrip(s, cs)| == |s|
    ensures !In(s[0], cs)
    ensures LStrip(s, cs)[0] == s[0] && LStrip(s, cs)[|s| - 1] == s[|s| - 1]
  {
    var n := LeadLen(s, cs);
    assert n == 0 by {
      assert |LStrip(s, cs)| == |s| - n;
    }
    var r := LStrip(s, cs);
    assert r == s[n..];
    assert r[0] == s[0] && r[|s| - 1] == s[|s| - 1];
  }

  /** If strip removes nothing, s neither begins nor ends with a character
      of cs and comes back unchanged at both ends. */
  lemma StripKeepsAll(s: string, cs: CharSet)
    requires s != [] && |Strip(s, cs)| == |s|
    ensures !In(s[0], cs) && !In(s[|s| - 1], cs)
    ensures Strip(s, cs)[0] == s[0] && Strip(s, cs)[|s| - 1] == s[|s| - 1]
  {
    var i, j := LeadLen(s, cs), KeepLen(s, cs);
    assert i == 0 && j == |s|;
  }

  /** A slice of a slice of s is a slice of s. */
  lemma SliceOfSlice(t: string, u: string, s: string)
    requires IsSliceOf(t, u) && IsSliceOf(u, s)
    ensures IsSliceOf(t, s)
  {
    var i, j :| 0 <= i <= j <= |u| && t == u[i..j];
    var i', j' :| 0 <= i' <= j' <= |s| && u == s[i'..j'];
    forall k | 0 <= k < |t| ensures t[k] == s[i' + i + k] {
      assert t[k] == u[i + k];
    }
    assert t == s[i' + i..i' + j];
  }

  /** Each of the three methods returns a slice of its receiver. */
  lemma StripsAreSlices(s: string, cs: CharSet)
    ensures IsSliceOf(LStrip(s, cs), s)
    ensures IsSliceOf(RStrip(s, cs), s)
    ensures IsSliceOf(Strip(s, cs), s)
  {
    var l := LStrip(s, cs);
    assert l == s[|s| - |l|..|s|];
    var r := RStrip(s, cs);
    assert r == s[0..|r|];
    StripCuts(s, cs);
  }

  /** A string that starts and ends outside cs is returned unchanged. */
  lemma StripFixes(s: string, cs: CharSet)
    requires s == [] || (!In(s[0], cs) && !In(s[|s| - 1], cs))
    ensures LStrip(s, cs) == s && RStrip(s, cs) == s && Strip(s, cs) == s
  {
    if s != [] {
      LeadLenUnique(s, cs, 0);
      assert s[0..] == s;
      KeepLenUnique(s, cs, |s|);
      assert s[..|s|] == s;
      assert Strip(s, cs) == s[0..|s|];
    }
  }
}
