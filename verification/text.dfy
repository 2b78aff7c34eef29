/** `String.prototype.trim`: white space and line terminators removed from
    both ends of a string. */
module Text {

  /** The characters ECMAScript counts as white space or line terminators. */
  predicate IsSpace(c: char) {
    c in {'\t', '\n', '\U{000B}', '\U{000C}', '\r', ' ', '\U{00A0}', '\U{1680}',
          '\U{2000}', '\U{2001}', '\U{2002}', '\U{2003}', '\U{2004}', '\U{2005}',
          '\U{2006}', '\U{2007}', '\U{2008}', '\U{2009}', '\U{200A}', '\U{2028}',
          '\U{2029}', '\U{202F}', '\U{205F}', '\U{3000}', '\U{FEFF}'}
  }

  /** The string without its leading white space: the longest suffix that
      does not start with a space. */
  function TrimStart(s: string): (r: string)
    ensures |r| <= |s| && r == s[|s| - |r|..]
    ensures forall k :: 0 <= k < |s| - |r| ==> IsSpace(s[k])
    ensures r == [] || !IsSpace(r[0])
  {
    if s != [] && IsSpace(s[0]) then
      var r := TrimStart(s[1..]);
      assert s[1..][|s| - 1 - |r|..] == s[|s| - |r|..];
      assert forall k :: 1 <= k < |s| - |r| ==> s[k] == s[1..][k - 1];
      r
    else s
  }

  /** The string without its trailing white space: the longest prefix that
      does not end with a space. */
  function TrimEnd(s: string): (r: string)
    ensures |r| <= |s| && r == s[..|r|]
    ensures forall k :: |r| <= k < |s| ==> IsSpace(s[k])
    ensures r == [] || !IsSpace(r[|r| - 1])
  {
    if s != [] && IsSpace(s[|s| - 1]) then TrimEnd(s[..|s| - 1]) else s
  }

  /** Both ends trimmed. */
  function Trim(s: string): (r: string)
    ensures r == [] || (!IsSpace(r[0]) && !IsSpace(r[|r| - 1]))
    ensures exists i, j :: 0 <= i <= j <= |s| && r == s[i..j] && CutSpaces(s, i, j)
  {
    var t := TrimStart(s);
    var r := TrimEnd(t);
    TrimCut(s, t, r);
    r
  }

  /** Trimming the front and then the back of `s` cuts only white space
      off either end. */
  lemma {:induction false} TrimCut(s: string, t: string, r: string)
    requires t == TrimStart(s) && r == TrimEnd(t)
    ensures r == [] || (!IsSpace(r[0]) && !IsSpace(r[|r| - 1]))
    ensures exists i, j :: 0 <= i <= j <= |s| && r == s[i..j] && CutSpaces(s, i, j)
  {
    var i := |s| - |t|;
    assert t == s[i..];
    BackCut(s, i, t, r);
    assert r != [] ==> r[0] == t[0];
    assert 0 <= i <= i + |r| <= |s| && r == s[i..i + |r|] && CutSpaces(s, i, i + |r|);
  }

  /** What trimming the back of a suffix cuts is white space of the whole. */
  lemma BackCut(s: string, i: int, t: string, r: string)
    requires 0 <= i <= |s| && t == s[i..] && r == TrimEnd(t)
    ensures i + |r| <= |s| && r == s[i..i + |r|]
    ensures forall k :: i + |r| <= k < |s| ==> IsSpace(s[k])
  {
    forall k | i + |r| <= k < |s|
      ensures IsSpace(s[k])
    {
      assert s[k] == t[k - i];
    }
  }

  /** Only white space lies outside `s[i..j]`. */
  predicate CutSpaces(s: string, i: int, j: int)
    requires 0 <= i <= j <= |s|
  {
    && (forall k :: 0 <= k < i ==> IsSpace(s[k]))
    && (forall k :: j <= k < |s| ==> IsSpace(s[k]))
  }

  /** A string with no space at either end is its own trim. */
  lemma TrimOfTrimmed(s: string)
    requires s == [] || (!IsSpace(s[0]) && !IsSpace(s[|s| - 1]))
    ensures Trim(s) == s
  {
  }

  /** Trimming twice is trimming once. */
  lemma TrimIdempotent(s: string)
    ensures Trim(Trim(s)) == Trim(s)
  {
    TrimOfTrimmed(Trim(s));
  }

  /** A trailing run of spaces after a trimmed word disappears. */
  lemma {:induction false} TrimDropsTrailingSpace(w: string, sp: string)
    requires w == [] || (!IsSpace(w[0]) && !IsSpace(w[|w| - 1]))
    requires forall k :: 0 <= k < |sp| ==> IsSpace(sp[k])
    ensures Trim(w + sp) == w
    decreases |sp|
  {
    if sp == [] {
      assert w + sp == w;
    } else if w == [] {
      assert w + sp == sp;
      AllSpaceTrimsToEmpty(sp);
    } else {
      assert TrimStart(w + sp) == w + sp;
      var s := w + sp;
      assert s[..|s| - 1] == w + sp[..|sp| - 1];
      TrimDropsTrailingSpace(w, sp[..|sp| - 1]);
    }
  }

  /** A string made only of spaces trims to nothing. */
  lemma {:induction false} AllSpaceTrimsToEmpty(sp: string)
    requires forall k :: 0 <= k < |sp| ==> IsSpace(sp[k])
    ensures TrimStart(sp) == [] && Trim(sp) == []
    decreases |sp|
  {
    if sp != [] {
      AllSpaceTrimsToEmpty(sp[1..]);
    }
  }

  /** A leading run of spaces before a trimmed word disappears. */
  lemma {:induction false} TrimDropsLeadingSpace(sp: string, w: string)
    requires w == [] || (!IsSpace(w[0]) && !IsSpace(w[|w| - 1]))
    requires forall k :: 0 <= k < |sp| ==> IsSpace(sp[k])
    ensures Trim(sp + w) == w
    decreases |sp|
  {
    if sp == [] {
      assert sp + w == w;
    } else {
      assert (sp + w)[1..] == sp[1..] + w;
      TrimDropsLeadingSpace(sp[1..], w);
    }
  }

  /** A lone space trims to nothing. */
  lemma SpaceTrimsToEmpty()
    ensures Trim(" ") == ""
  {
    assert IsSpace(" "[0]);
    assert " "[1..] == [];
  }
}
