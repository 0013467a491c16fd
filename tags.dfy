/** The tag field of the capture form (app.py:83 and app.py:376): the text is split on
    commas, each piece stripped of surrounding whitespace, empty pieces dropped, order
    kept. */
module Tags {
  import opened Seqs

  /** Python's `str.isspace` for one character: ASCII whitespace, the separators
      U+001C..U+001F, and the Unicode space characters. */
  predicate IsSpace(c: char) {
    || c == ' ' || ('\t' <= c <= '\r') || ('\U{1C}' <= c <= '\U{1F}')
    || c == '\U{85}' || c == '\U{A0}' || c == '\U{1680}' || ('\U{2000}' <= c <= '\U{200A}')
    || c == '\U{2028}' || c == '\U{2029}' || c == '\U{202F}' || c == '\U{205F}' || c == '\U{3000}'
  }

  /** No whitespace at either end. */
  predicate Stripped(t: string) {
    t == [] || (!IsSpace(t[0]) && !IsSpace(t[|t| - 1]))
  }

  /** What the comprehension keeps: non-empty, stripped, and without a comma. */
  predicate Tag(t: string) {
    t != [] && Stripped(t) && ',' !in t
  }

  /** `s.split(',')`: at least one piece. */
  function Split(s: string): (pieces: seq<string>)
    ensures |pieces| >= 1
  {
    if s == [] then [[]]
    else
      var rest := Split(s[1..]);
      if s[0] == ',' then [[]] + rest
      else [[s[0]] + rest[0]] + rest[1..]
  }

  /** No piece holds a comma. */
  lemma {:induction false} SplitNoComma(s: string)
    ensures forall i :: 0 <= i < |Split(s)| ==> ',' !in Split(s)[i]
  {
    if s != [] {
      SplitNoComma(s[1..]);
      var rest := Split(s[1..]);
      if s[0] != ',' {
        assert forall c :: c in [s[0]] + rest[0] ==> c == s[0] || c in rest[0];
        assert forall i :: 1 <= i < |Split(s)| ==> Split(s)[i] == rest[i];
      } else {
        assert forall i :: 1 <= i < |Split(s)| ==> Split(s)[i] == rest[i - 1];
      }
    }
  }

  /** Joined back with commas, the pieces give the text again. */
  lemma {:induction false} JoinSplit(s: string)
    ensures Join(Split(s)) == s
  {
    if s != [] {
      JoinSplit(s[1..]);
      var rest := Split(s[1..]);
      assert s == [s[0]] + s[1..];
      if s[0] == ',' {
        assert Split(s) == [[]] + rest;
        JoinCons([], rest);
      } else {
        assert Split(s) == [[s[0]] + rest[0]] + rest[1..];
        JoinPrepend(s[0], rest);
      }
    }
  }

  lemma JoinCons(h: string, t: seq<string>)
    requires |t| >= 1
    ensures Join([h] + t) == h + "," + Join(t)
  {
    assert ([h] + t)[1..] == t;
  }

  /** A character put in front of the first piece is put in front of the join. */
  lemma JoinPrepend(c: char, pieces: seq<string>)
    requires |pieces| >= 1
    ensures Join([[c] + pieces[0]] + pieces[1..]) == [c] + Join(pieces)
  {
    if |pieces| > 1 {
      JoinCons([c] + pieces[0], pieces[1..]);
      JoinCons(pieces[0], pieces[1..]);
      assert pieces == [pieces[0]] + pieces[1..];
      Regroup4([c], pieces[0], ",", Join(pieces[1..]));
    }
  }

  /** `','.join(pieces)` */
  function Join(pieces: seq<string>): string
    requires |pieces| >= 1
  {
    if |pieces| == 1 then pieces[0] else pieces[0] + "," + Join(pieces[1..])
  }

  /** The other direction of the round trip: pieces without commas come back from their
      join unchanged. */
  lemma {:induction false} SplitJoin(pieces: seq<string>)
    requires |pieces| >= 1
    requires forall i :: 0 <= i < |pieces| ==> ',' !in pieces[i]
    ensures Split(Join(pieces)) == pieces
  {
    if |pieces| == 1 {
      NoCommaSplit(pieces[0]);
    } else {
      SplitJoin(pieces[1..]);
      SplitAppend(pieces[0], Join(pieces[1..]));
      NoCommaSplit(pieces[0]);
      assert pieces == [pieces[0]] + pieces[1..];
    }
  }

  lemma {:induction false} NoCommaSplit(s: string)
    requires ',' !in s
    ensures Split(s) == [s]
  {
    if s != [] {
      assert s[0] in s;
      assert forall c :: c in s[1..] ==> c in s;
      NoCommaSplit(s[1..]);
      assert s == [s[0]] + s[1..];
    }
  }

  /** Splitting at one more comma: the pieces of each side, one after the other. */
  lemma {:induction false} SplitAppend(a: string, b: string)
    ensures Split(a + "," + b) == Split(a) + Split(b)
  {
    var s := a + "," + b;
    if a == [] {
      assert s == [','] + b;
      assert s[1..] == b;
    } else {
      assert s[0] == a[0];
      assert s[1..] == a[1..] + "," + b;
      SplitAppend(a[1..], b);
    }
  }

  /** Leading whitespace removed. */
  function TrimStart(s: string): (r: string)
    ensures r == [] || !IsSpace(r[0])
    ensures forall c :: c in r ==> c in s
  {
    if s != [] && IsSpace(s[0]) then TrimStart(s[1..]) else s
  }

  /** Trailing whitespace removed. */
  function TrimEnd(s: string): (r: string)
    ensures r == [] || !IsSpace(r[|r| - 1])
    ensures |r| <= |s| && (r != [] ==> r[0] == s[0])
    ensures forall c :: c in r ==> c in s
  {
    if s != [] && IsSpace(s[|s| - 1]) then TrimEnd(s[..|s| - 1]) else s
  }

  /** `s.strip()` */
  function Strip(s: string): (r: string)
    ensures Stripped(r)
    ensures forall c :: c in r ==> c in s
  {
    TrimEnd(TrimStart(s))
  }

  /** `TrimStart` removes a prefix of whitespace and nothing else. */
  lemma {:induction false} TrimStartSuffix(s: string)
    ensures var r := TrimStart(s);
      && |r| <= |s| && r == s[|s| - |r|..]
      && forall i :: 0 <= i < |s| - |r| ==> IsSpace(s[i])
  {
    if s != [] && IsSpace(s[0]) {
      TrimStartSuffix(s[1..]);
    }
  }

  /** `TrimEnd` removes a suffix of whitespace and nothing else. */
  lemma {:induction false} TrimEndPrefix(s: string)
    ensures var r := TrimEnd(s);
      && |r| <= |s| && r == s[..|r|]
      && forall i :: |r| <= i < |s| ==> IsSpace(s[i])
  {
    if s != [] && IsSpace(s[|s| - 1]) {
      TrimEndPrefix(s[..|s| - 1]);
    }
  }

  /** `Strip` keeps a slice of the text, and everything around that slice is
      whitespace. */
  lemma StripSlice(s: string)
    ensures var i := |s| - |TrimStart(s)|;
      && 0 <= i <= i + |Strip(s)| <= |s|
      && Strip(s) == s[i..i + |Strip(s)|]
      && (forall k :: 0 <= k < i ==> IsSpace(s[k]))
      && (forall k :: i + |Strip(s)| <= k < |s| ==> IsSpace(s[k]))
  {
    var t := TrimStart(s);
    var r := TrimEnd(t);
    TrimStartSuffix(s);
    TrimEndPrefix(t);
    var i := |s| - |t|;
    assert r == s[i..i + |r|];
    assert forall k :: i + |r| <= k < |s| ==> s[k] == t[k - i];
  }

  /** A text with nothing to strip is left as it is. */
  lemma StripStripped(t: string)
    requires Stripped(t)
    ensures Strip(t) == t
  {
  }

  /** The comprehension over the pieces: each kept tag is non-empty and stripped. */
  function Keep(pieces: seq<string>): (tags: seq<string>)
    ensures forall i :: 0 <= i < |tags| ==> tags[i] != [] && Stripped(tags[i])
  {
    if pieces == [] then []
    else
      var t := Strip(pieces[0]);
      (if t != [] then [t] else []) + Keep(pieces[1..])
  }

  /** `[t.strip() for t in text.split(',') if t.strip()]` */
  function ParseTags(text: string): (tags: seq<string>)
    ensures forall i :: 0 <= i < |tags| ==> tags[i] != [] && Stripped(tags[i])
  {
    Keep(Split(text))
  }

  lemma {:induction false} KeepNoComma(pieces: seq<string>)
    requires forall i :: 0 <= i < |pieces| ==> ',' !in pieces[i]
    ensures forall i :: 0 <= i < |Keep(pieces)| ==> ',' !in Keep(pieces)[i]
  {
    if pieces != [] {
      KeepNoComma(pieces[1..]);
    }
  }

  /** Every tag is non-empty, stripped, and free of commas. */
  lemma ParseTagsClean(text: string)
    ensures forall i :: 0 <= i < |ParseTags(text)| ==> Tag(ParseTags(text)[i])
  {
    SplitNoComma(text);
    KeepNoComma(Split(text));
  }

  lemma {:induction false} KeepAppend(p: seq<string>, q: seq<string>)
    ensures Keep(p + q) == Keep(p) + Keep(q)
  {
    if p != [] {
      var t := Strip(p[0]);
      var front := if t != [] then [t] else [];
      assert (p + q)[0] == p[0];
      assert (p + q)[1..] == p[1..] + q;
      KeepAppend(p[1..], q);
      assert Keep(p + q) == front + (Keep(p[1..]) + Keep(q));
      assert Keep(p) == front + Keep(p[1..]);
      Assoc(front, Keep(p[1..]), Keep(q));
    } else {
      assert p + q == q;
    }
  }

  /** A text without commas gives its stripped self, or nothing when that is empty. */
  lemma ParseTagsOne(s: string)
    requires ',' !in s
    ensures ParseTags(s) == if Strip(s) == [] then [] else [Strip(s)]
  {
    NoCommaSplit(s);
    assert Keep([s]) == (if Strip(s) != [] then [Strip(s)] else []) + Keep([s][1..]);
  }

  /** Tags on either side of a comma come out in their order: with `ParseTagsOne` this
      determines `ParseTags` on every text. */
  lemma ParseTagsAppend(a: string, b: string)
    ensures ParseTags(a + "," + b) == ParseTags(a) + ParseTags(b)
  {
    SplitAppend(a, b);
    KeepAppend(Split(a), Split(b));
  }

  /** Clean tags joined with commas parse back to themselves. */
  lemma {:induction false} ParseTagsJoin(tags: seq<string>)
    requires |tags| >= 1
    requires forall i :: 0 <= i < |tags| ==> Tag(tags[i])
    ensures ParseTags(Join(tags)) == tags
  {
    ParseTagsOne(tags[0]);
    StripStripped(tags[0]);
    if |tags| > 1 {
      ParseTagsJoin(tags[1..]);
      ParseTagsAppend(tags[0], Join(tags[1..]));
      assert tags == [tags[0]] + tags[1..];
    }
  }
}
