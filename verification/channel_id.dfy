/** The channel identifier of index.js:43:
    `(tvg.id || name).replace(/\s+/g, '-').toLowerCase()`.
    Whitespace runs are replaced first, then letters are lower-cased; nothing is trimmed. */
module ChannelId {
  import opened Js

  predicate NoSpace(s: string) {
    forall i :: 0 <= i < |s| ==> !IsSpace(s[i])
  }

  predicate AllSpace(s: string) {
    forall i :: 0 <= i < |s| ==> IsSpace(s[i])
  }

  predicate NoUpper(s: string) {
    forall i :: 0 <= i < |s| ==> !IsUpper(s[i])
  }

  /** What is left of `s` once its leading whitespace run is consumed. */
  function DropSpaces(s: string): (r: string)
    ensures |r| <= |s| && r == s[|s| - |r|..]
    ensures forall i :: 0 <= i < |s| - |r| ==> IsSpace(s[i])
    ensures r == [] || !IsSpace(r[0])
  {
    if s != [] && IsSpace(s[0]) then DropSpaces(s[1..]) else s
  }

  /** `s.replace(/\s+/g, '-')`: the global regular expression matches each
      maximal whitespace run in turn, left to right, and each match becomes one hyphen. */
  function Collapse(s: string): (r: string)
    ensures |r| <= |s|
    ensures NoSpace(r)
    decreases |s|
  {
    if s == [] then []
    else if IsSpace(s[0]) then "-" + Collapse(DropSpaces(s[1..]))
    else [s[0]] + Collapse(s[1..])
  }

  /** `s.toLowerCase()`, for the ASCII letters. */
  function Lower(s: string): (r: string)
    ensures |r| == |s|
    ensures forall i :: 0 <= i < |s| ==> r[i] == LowerChar(s[i])
  {
    if s == [] then [] else [LowerChar(s[0])] + Lower(s[1..])
  }

  /** The identifier derived from a tag or name. */
  function Normalise(s: string): (r: string)
    ensures NoSpace(r) && NoUpper(r)
    ensures |r| <= |s|
  {
    Lower(Collapse(s))
  }

  /** Text without whitespace passes through the replacement unchanged. */
  lemma {:induction false} CollapseKeepsWords(s: string)
    requires NoSpace(s)
    ensures Collapse(s) == s
  {
    if s != [] {
      assert !IsSpace(s[0]);
      CollapseKeepsWords(s[1..]);
    }
  }

  /** A non-empty whitespace run on its own becomes exactly one hyphen. */
  lemma {:induction false} CollapseRun(w: string)
    requires w != [] && AllSpace(w)
    ensures Collapse(w) == "-"
  {
    DropSpacesOfRun(w[1..]);
  }

  lemma {:induction false} DropSpacesOfRun(w: string)
    requires AllSpace(w)
    ensures DropSpaces(w) == []
  {
    if w != [] {
      DropSpacesOfRun(w[1..]);
    }
  }

  lemma {:induction false} DropSpacesAppend(a: string, b: string)
    ensures DropSpaces(a + b) == if DropSpaces(a) == [] then DropSpaces(b) else DropSpaces(a) + b
  {
    if a == [] {
      assert a + b == b;
    } else if IsSpace(a[0]) {
      assert (a + b)[1..] == a[1..] + b;
      DropSpacesAppend(a[1..], b);
    }
  }

  /** The replacement works piecewise: cutting the text anywhere except in the
      middle of a whitespace run cuts the result at the same place. */
  lemma {:induction false} CollapseAppend(a: string, b: string)
    requires a == [] || b == [] || !IsSpace(a[|a| - 1]) || !IsSpace(b[0])
    ensures Collapse(a + b) == Collapse(a) + Collapse(b)
    decreases |a|
  {
    if a == [] {
      assert a + b == b;
    } else if !IsSpace(a[0]) {
      assert (a + b)[0] == a[0];
      assert (a + b)[1..] == a[1..] + b;
      CollapseAppend(a[1..], b);
      PrependAssoc(a[0], Collapse(a[1..]), Collapse(b));
    } else {
      var rest := a[1..];
      var d := DropSpaces(rest);
      assert (a + b)[0] == a[0];
      assert (a + b)[1..] == rest + b;
      DropSpacesAppend(rest, b);
      if d == [] {
        // `a` is a single whitespace run, so `b` does not start with one
        assert |rest| > 0 ==> a[|a| - 1] == rest[|rest| - 1];
        assert DropSpaces(b) == b;
        assert Collapse(a + b) == "-" + Collapse(b);
        assert Collapse(a) == "-" + Collapse(d);
        assert Collapse(a) == ['-'];
      } else {
        assert d[|d| - 1] == rest[|rest| - 1];
        assert DropSpaces(rest + b) == d + b;
        assert Collapse(a + b) == "-" + Collapse(d + b);
        assert Collapse(a) == "-" + Collapse(d);
        CollapseAppend(d, b);
        PrependAssoc('-', Collapse(d), Collapse(b));
      }
    }
  }

  lemma PrependAssoc(c: char, x: string, y: string)
    ensures [c] + (x + y) == ([c] + x) + y
  {
  }

  lemma {:induction false} LowerAppend(a: string, b: string)
    ensures Lower(a + b) == Lower(a) + Lower(b)
  {
  }

  /** Each maximal whitespace run becomes exactly one hyphen, and the text on
      either side of it is normalised on its own. */
  lemma NormaliseRun(a: string, w: string, b: string)
    requires a == [] || !IsSpace(a[|a| - 1])
    requires w != [] && AllSpace(w)
    requires b == [] || !IsSpace(b[0])
    ensures Normalise(a + w + b) == Normalise(a) + "-" + Normalise(b)
  {
    var ca, cb := Collapse(a), Collapse(b);
    CollapseAroundRun(a, w, b);
    LowerAppend(ca, "-" + cb);
    LowerAppend("-", cb);
    assert Lower("-") == "-";
    AppendAssoc(Lower(ca), "-", Lower(cb));
  }

  lemma CollapseAroundRun(a: string, w: string, b: string)
    requires a == [] || !IsSpace(a[|a| - 1])
    requires w != [] && AllSpace(w)
    requires b == [] || !IsSpace(b[0])
    ensures Collapse(a + w + b) == Collapse(a) + ("-" + Collapse(b))
  {
    CollapseRun(w);
    CollapseAppend(w, b);
    AppendAssoc(a, w, b);
    CollapseAppend(a, w + b);
  }

  lemma AppendAssoc(x: string, y: string, z: string)
    ensures x + y + z == x + (y + z)
  {
  }

  /** Text without whitespace only has its letters lower-cased. */
  lemma NormaliseWord(s: string)
    requires NoSpace(s)
    ensures Normalise(s) == Lower(s)
  {
    CollapseKeepsWords(s);
  }

  /** An identifier is its own normal form, so normalising twice changes nothing. */
  lemma NormaliseIdempotent(s: string)
    ensures Normalise(Normalise(s)) == Normalise(s)
  {
    var n := Normalise(s);
    CollapseKeepsWords(n);
    assert Lower(n) == n;
  }

  /** Text without capitals is left alone by the lower-casing. */
  lemma LowerKeepsLower(s: string)
    requires NoUpper(s)
    ensures Lower(s) == s
  {
  }

  /** Trailing whitespace is not trimmed: it becomes a trailing hyphen. */
  lemma TrailingSpaceBecomesHyphen(a: string, w: string)
    requires a == [] || !IsSpace(a[|a| - 1])
    requires w != [] && AllSpace(w)
    ensures Normalise(a + w) == Normalise(a) + "-"
  {
    NormaliseRun(a, w, "");
    assert a + w + "" == a + w;
    assert Normalise("") == "";
  }

  /** The tag "HBO " gives the id "hbo-". */
  lemma TrailingSpaceExample(tag: string)
    requires tag == "HBO "
    ensures Normalise(tag) == "hbo-"
  {
    var word := tag[..3];
    assert tag == word + " ";
    TrailingSpaceBecomesHyphen(word, " ");
    NormaliseWord(word);
    assert Lower(word) == "hbo";
  }
}
