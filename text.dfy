/** Text as SQLite compares it. Timestamps are ISO strings, so `ORDER BY created_at` is the
    lexicographic order of the text (the BINARY collation); a NULL sorts below every text.
    `LIKE '%p%'` is read as "contains p". */
module Text {
  import opened Wrappers

  /** A sort key: the value of a TEXT column, NULL being `None`. */
  type Key = Option<string>

  /** Lexicographic order on text: a prefix comes first. */
  predicate TextLe(a: string, b: string) {
    a == [] || (b != [] && (a[0] < b[0] || (a[0] == b[0] && TextLe(a[1..], b[1..]))))
  }

  /** SQLite's order on a nullable TEXT column: NULL first, then the texts. */
  predicate KeyLe(a: Key, b: Key) {
    a.None? || (b.Some? && TextLe(a.value, b.value))
  }

  lemma {:induction false} TextLeTotal(a: string, b: string)
    ensures TextLe(a, b) || TextLe(b, a)
  {
    if a != [] && b != [] && a[0] == b[0] {
      TextLeTotal(a[1..], b[1..]);
    }
  }

  lemma {:induction false} TextLeTransitive(a: string, b: string, c: string)
    requires TextLe(a, b) && TextLe(b, c)
    ensures TextLe(a, c)
  {
    if a != [] && a[0] == b[0] && b[0] == c[0] {
      TextLeTransitive(a[1..], b[1..], c[1..]);
    }
  }

  lemma {:induction false} TextLeAntisymmetric(a: string, b: string)
    requires TextLe(a, b) && TextLe(b, a)
    ensures a == b
  {
    if a != [] {
      TextLeAntisymmetric(a[1..], b[1..]);
      assert a == [a[0]] + a[1..] && b == [b[0]] + b[1..];
    }
  }

  lemma KeyLeTotal(a: Key, b: Key)
    ensures KeyLe(a, b) || KeyLe(b, a)
  {
    if a.Some? && b.Some? {
      TextLeTotal(a.value, b.value);
    }
  }

  lemma KeyLeTransitive(a: Key, b: Key, c: Key)
    requires KeyLe(a, b) && KeyLe(b, c)
    ensures KeyLe(a, c)
  {
    if a.Some? {
      TextLeTransitive(a.value, b.value, c.value);
    }
  }

  // ---------------------------------------------------------------------------------------
  // LIKE '%p%'

  /** `needle` occurs somewhere in `hay`. */
  predicate Contains(hay: string, needle: string) {
    exists i :: 0 <= i <= |hay| - |needle| && OccursAt(hay, needle, i)
  }

  predicate OccursAt(hay: string, needle: string, i: int)
    requires 0 <= i <= |hay| - |needle|
  {
    hay[i..i + |needle|] == needle
  }

  lemma ContainsItself(s: string)
    ensures Contains(s, s)
  {
    assert s[0..|s|] == s;
    assert OccursAt(s, s, 0);
  }

  /** Text found in `mid` is found in any text that has `mid` inside it. */
  lemma ContainsInside(front: string, mid: string, back: string, needle: string)
    requires Contains(mid, needle)
    ensures Contains(front + mid + back, needle)
  {
    var i :| 0 <= i <= |mid| - |needle| && OccursAt(mid, needle, i);
    var hay := front + mid + back;
    var j := |front| + i;
    assert hay[j..j + |needle|] == mid[i..i + |needle|];
    assert OccursAt(hay, needle, j);
  }

  /** The empty text occurs in every text: `LIKE '%%'` matches any non-NULL value. */
  lemma ContainsEmpty(s: string)
    ensures Contains(s, [])
  {
    assert OccursAt(s, [], 0);
  }
}
