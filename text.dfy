/**
 * String helpers used by both search boxes: ASCII case folding (the model of
 * JavaScript's `toLowerCase`) and substring search (the model of
 * `String.prototype.includes`).
 */
module Text {

  predicate IsUpper(c: char) { 'A' <= c <= 'Z' }

  predicate IsLower(c: char) { 'a' <= c <= 'z' }

  /** ASCII lower-casing of one character; every other character is unchanged. */
  function LowerChar(c: char): (r: char)
    ensures !IsUpper(r)
    ensures IsUpper(c) ==> IsLower(r)
    ensures !IsUpper(c) ==> r == c
  {
    if IsUpper(c) then (c as int + 32) as char else c
  }

  /** `s.toLowerCase()`, restricted to ASCII letters. */
  function ToLower(s: string): (r: string)
    ensures |r| == |s|
    ensures forall i :: 0 <= i < |s| ==> r[i] == LowerChar(s[i])
  {
    if |s| == 0 then [] else [LowerChar(s[0])] + ToLower(s[1..])
  }

  /**
   * Two characters are the same letter up to ASCII case: equal, or one is the
   * upper-case form of the other.
   */
  predicate SameUpToCase(c: char, d: char)
  {
    c == d
    || (IsUpper(c) && d as int == c as int + 32)
    || (IsUpper(d) && c as int == d as int + 32)
  }

  /** Two strings that differ only in the case of ASCII letters. */
  predicate EqualUpToCase(a: string, b: string)
  {
    |a| == |b| && forall i :: 0 <= i < |a| ==> SameUpToCase(a[i], b[i])
  }

  lemma LowerCharIffSameUpToCase(c: char, d: char)
    ensures LowerChar(c) == LowerChar(d) <==> SameUpToCase(c, d)
  {
  }

  /** Lower-casing identifies exactly the strings that differ only in case. */
  lemma ToLowerIffEqualUpToCase(a: string, b: string)
    ensures ToLower(a) == ToLower(b) <==> EqualUpToCase(a, b)
  {
    if ToLower(a) == ToLower(b) {
      forall i | 0 <= i < |a| ensures SameUpToCase(a[i], b[i]) {
        assert ToLower(a)[i] == ToLower(b)[i];
        LowerCharIffSameUpToCase(a[i], b[i]);
      }
    }
    if EqualUpToCase(a, b) {
      forall i | 0 <= i < |a| ensures ToLower(a)[i] == ToLower(b)[i] {
        LowerCharIffSameUpToCase(a[i], b[i]);
      }
    }
  }

  lemma ToLowerIdempotent(s: string)
    ensures ToLower(ToLower(s)) == ToLower(s)
  {
  }

  /** Lower-casing works character by character, so it distributes over concatenation. */
  lemma ToLowerAppend(a: string, b: string)
    ensures ToLower(a + b) == ToLower(a) + ToLower(b)
  {
    assert forall i :: 0 <= i < |a + b| ==> ToLower(a + b)[i] == (ToLower(a) + ToLower(b))[i];
  }

  /** `query` occurs in `text` starting at index `i`. */
  predicate OccursAt(text: string, query: string, i: int)
  {
    0 <= i && i + |query| <= |text| && text[i..i + |query|] == query
  }

  /** `text.includes(query)`: some index of `text` starts an occurrence of `query`. */
  predicate Includes(text: string, query: string)
  {
    exists i :: 0 <= i <= |text| - |query| && OccursAt(text, query, i)
  }

  /** The empty query occurs in every text (the reason a blank search box shows everything). */
  lemma IncludesEmpty(text: string)
    ensures Includes(text, "")
  {
    assert OccursAt(text, "", 0);
  }

  /** Every piece of an included query is included too. */
  lemma IncludesPiece(text: string, query: string, j: int, k: int)
    requires 0 <= j <= k <= |query|
    requires Includes(text, query)
    ensures Includes(text, query[j..k])
  {
    var i :| 0 <= i <= |text| - |query| && OccursAt(text, query, i);
    assert forall t :: 0 <= t < k - j ==> query[j..k][t] == text[i + j..i + k][t];
    assert OccursAt(text, query[j..k], i + j);
  }

  /** A text ends with an occurrence of its own suffix `b`. */
  lemma IncludesSuffix(a: string, b: string)
    ensures Includes(a + b, b)
  {
    assert (a + b)[|a|..|a| + |b|] == b;
    assert OccursAt(a + b, b, |a|);
  }

  /** A one-character query is included exactly when the character occurs. */
  lemma IncludesChar(text: string, c: char)
    ensures Includes(text, [c]) <==> c in text
  {
    if c in text {
      var i :| 0 <= i < |text| && text[i] == c;
      assert OccursAt(text, [c], i);
    }
    if i :| OccursAt(text, [c], i) {
      assert text[i] == text[i..i + 1][0];
    }
  }

  /** A two-character query is included exactly when the two characters occur side by side. */
  lemma IncludesPair(text: string, c: char, d: char)
    ensures Includes(text, [c, d]) <==> exists i :: 0 <= i < |text| - 1 && text[i] == c && text[i + 1] == d
  {
    if i :| 0 <= i < |text| - 1 && text[i] == c && text[i + 1] == d {
      assert text[i..i + 2] == [c, d];
      assert OccursAt(text, [c, d], i);
    }
    if i :| OccursAt(text, [c, d], i) {
      assert text[i] == text[i..i + 2][0] && text[i + 1] == text[i..i + 2][1];
    }
  }

  /** A query one of whose characters never occurs in the text is not included. */
  lemma Excludes(text: string, query: string, k: int)
    requires 0 <= k < |query|
    requires query[k] !in text
    ensures !Includes(text, query)
  {
    IncludesChar(text, query[k]);
    assert query[k..k + 1] == [query[k]];
    if Includes(text, query) {
      IncludesPiece(text, query, k, k + 1);
    }
  }

  /** A query two of whose adjacent characters never occur side by side in the text is not included. */
  lemma ExcludesPair(text: string, query: string, k: int)
    requires 0 <= k < |query| - 1
    requires forall i :: 0 <= i < |text| - 1 ==> !(text[i] == query[k] && text[i + 1] == query[k + 1])
    ensures !Includes(text, query)
  {
    IncludesPair(text, query[k], query[k + 1]);
    assert query[k..k + 2] == [query[k], query[k + 1]];
    if Includes(text, query) {
      IncludesPiece(text, query, k, k + 2);
    }
  }

  /** For a lower-case letter `c` with upper-case form `C`: a character lower-cases to `c` exactly when it is `c` or `C`. */
  lemma LowerCharIsLetter(ch: char, c: char, C: char)
    requires IsLower(c) && C as int == c as int - 32
    ensures LowerChar(ch) == c <==> ch == c || ch == C
  {
  }

  /**
   * A query holding a letter that occurs in the text in neither case is not
   * included in the lower-cased text.
   */
  lemma ExcludesLetter(text: string, query: string, k: int, c: char, C: char)
    requires 0 <= k < |query| && query[k] == c
    requires IsLower(c) && C as int == c as int - 32
    requires c !in text && C !in text
    ensures !Includes(ToLower(text), query)
  {
    forall i | 0 <= i < |text| ensures ToLower(text)[i] != c {
      LowerCharIsLetter(text[i], c, C);
    }
    Excludes(ToLower(text), query, k);
  }

  /** Every position where `c` occurs in `text` is in `P`. */
  predicate OnlyAt(text: string, c: char, P: set<int>)
  {
    forall i :: 0 <= i < |text| && text[i] == c ==> i in P
  }

  /** No position in `P` is followed by `d` in `text`. */
  predicate NotFollowedBy(text: string, P: set<int>, d: char)
  {
    forall i :: i in P && 0 <= i && i + 1 < |text| ==> text[i + 1] != d
  }

  /**
   * A query holding two adjacent letters `c`, `d` is not included in the
   * lower-cased text when every position `P` where `c` occurs (in either
   * case) is followed by something other than `d` (in either case).
   */
  lemma ExcludesLetterPair(text: string, query: string, k: int, c: char, C: char, d: char, D: char, P: set<int>)
    requires 0 <= k < |query| - 1 && query[k] == c && query[k + 1] == d
    requires IsLower(c) && C as int == c as int - 32
    requires IsLower(d) && D as int == d as int - 32
    requires OnlyAt(text, c, P) && OnlyAt(text, C, P)
    requires NotFollowedBy(text, P, d) && NotFollowedBy(text, P, D)
    ensures !Includes(ToLower(text), query)
  {
    forall i | 0 <= i < |text| - 1 ensures !(ToLower(text)[i] == c && ToLower(text)[i + 1] == d) {
      LowerCharIsLetter(text[i], c, C);
      LowerCharIsLetter(text[i + 1], d, D);
    }
    ExcludesPair(ToLower(text), query, k);
  }
}
