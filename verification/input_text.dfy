/** The clean-up applied to every raw entry before it is handed to the number
    parser: surrounding whitespace is stripped, then every comma (a thousands
    separator) is deleted, in that order. */
module InputText {

  /** The characters Python's `str.isspace` accepts, and so the ones `str.strip()`
      with no argument removes. */
  predicate IsSpace(c: char) {
    || c == ' ' || c == '\t' || c == '\n' || c == '\r'
    || c == '\U{000B}' || c == '\U{000C}'
    || '\U{001C}' <= c <= '\U{001F}'
    || c == '\U{0085}' || c == '\U{00A0}' || c == '\U{1680}'
    || '\U{2000}' <= c <= '\U{200A}'
    || c == '\U{2028}' || c == '\U{2029}' || c == '\U{202F}' || c == '\U{205F}'
    || c == '\U{3000}'
  }

  /** No whitespace at either end: what `strip()` leaves behind. */
  predicate Trimmed(s: seq<char>) {
    s == [] || (!IsSpace(s[0]) && !IsSpace(s[|s| - 1]))
  }

  /** How many whitespace characters the text starts with. */
  function LeadingSpaces(s: seq<char>): (n: nat)
    ensures n <= |s|
    ensures forall k :: 0 <= k < n ==> IsSpace(s[k])
    ensures n < |s| ==> !IsSpace(s[n])
  {
    if |s| > 0 && IsSpace(s[0]) then 1 + LeadingSpaces(s[1..]) else 0
  }

  /** How many whitespace characters the text ends with. */
  function TrailingSpaces(s: seq<char>): (n: nat)
    ensures n <= |s|
    ensures forall k :: |s| - n <= k < |s| ==> IsSpace(s[k])
    ensures n < |s| ==> !IsSpace(s[|s| - 1 - n])
  {
    if |s| > 0 && IsSpace(s[|s| - 1]) then 1 + TrailingSpaces(s[..|s| - 1]) else 0
  }

  /** `str.strip()`: the result is the input with its leading whitespace and
      its trailing whitespace cut off; every character outside the result is
      whitespace, and the result has no whitespace at either end. */
  function Strip(s: seq<char>): (r: seq<char>)
    ensures Trimmed(r)
    ensures LeadingSpaces(s) + |r| <= |s|
    ensures forall k :: 0 <= k < |r| ==> r[k] == s[LeadingSpaces(s) + k]
    ensures forall k :: 0 <= k < |s| && !(LeadingSpaces(s) <= k < LeadingSpaces(s) + |r|)
                        ==> IsSpace(s[k])
  {
    var a := LeadingSpaces(s);
    if a == |s| then []
    else
      var b := TrailingSpaces(s);
      s[a..|s| - b]
  }

  /** `str.replace(",", "")`: every comma deleted, every other character kept in order. */
  function RemoveCommas(s: seq<char>): (r: seq<char>)
    ensures ',' !in r
    ensures |r| <= |s|
    ensures forall c :: c != ',' ==> multiset(r)[c] == multiset(s)[c]
  {
    if s == [] then []
    else
      assert s == [s[0]] + s[1..];
      if s[0] == ',' then RemoveCommas(s[1..]) else [s[0]] + RemoveCommas(s[1..])
  }

  /** The clean-up `parse_float` applies before converting: strip, then delete commas. */
  function Normalize(s: seq<char>): (r: seq<char>)
    ensures ',' !in r
    ensures |r| <= |s|
  {
    RemoveCommas(Strip(s))
  }

  /** A text that has no comma is left exactly as it is. */
  lemma {:induction false} RemoveCommasKeepsCommaFree(s: seq<char>)
    requires ',' !in s
    ensures RemoveCommas(s) == s
  {
    if s != [] {
      RemoveCommasKeepsCommaFree(s[1..]);
    }
  }

  /** Deleting commas twice is the same as deleting them once. */
  lemma RemoveCommasIdempotent(s: seq<char>)
    ensures RemoveCommas(RemoveCommas(s)) == RemoveCommas(s)
  {
    RemoveCommasKeepsCommaFree(RemoveCommas(s));
  }

  /** Commas are deleted and nothing else: the result is the input with its commas filtered out. */
  lemma {:induction false} RemoveCommasDistributes(a: seq<char>, b: seq<char>)
    ensures RemoveCommas(a + b) == RemoveCommas(a) + RemoveCommas(b)
  {
    if a == [] {
      assert a + b == b;
    } else {
      assert (a + b)[1..] == a[1..] + b;
      RemoveCommasDistributes(a[1..], b);
    }
  }

  /** Stripping leaves an already trimmed text unchanged. */
  lemma StripKeepsTrimmed(s: seq<char>)
    requires Trimmed(s)
    ensures Strip(s) == s
  {
    if s != [] {
      assert LeadingSpaces(s) == 0;
      assert TrailingSpaces(s) == 0;
      assert s[0..|s|] == s;
    }
  }

  /** Stripping only ever removes characters, so it cannot introduce a comma. */
  lemma StripKeepsCommaFree(s: seq<char>)
    requires ',' !in s
    ensures ',' !in Strip(s)
  {
    var r, a := Strip(s), LeadingSpaces(s);
    forall k | 0 <= k < |r| ensures r[k] != ',' {
      assert r[k] == s[a + k];
    }
  }

  /** Normalising an already normalised text only strips it again. */
  lemma NormalizeTwice(s: seq<char>)
    ensures Normalize(Normalize(s)) == Strip(Normalize(s))
  {
    var n := Normalize(s);
    StripKeepsCommaFree(n);
    RemoveCommasKeepsCommaFree(Strip(n));
  }

  /** Normalising is idempotent exactly on the inputs whose normalised form has no
      whitespace at either end; deleting a comma can expose whitespace that the
      strip before it could not reach. */
  lemma NormalizeIdempotentIff(s: seq<char>)
    ensures Normalize(Normalize(s)) == Normalize(s) <==> Trimmed(Normalize(s))
  {
    NormalizeTwice(s);
    var n := Normalize(s);
    if Trimmed(n) {
      StripKeepsTrimmed(n);
    }
  }

  /** The text ", 5" normalises to " 5", which normalises again to "5". */
  lemma NormalizeNotIdempotent()
    ensures Normalize(", 5") == " 5"
    ensures Normalize(Normalize(", 5")) == "5"
  {
    CommaSpaceFive();
    SpaceFive();
  }

  /** ", 5" is already stripped, and deleting its comma leaves " 5". */
  lemma CommaSpaceFive()
    ensures Normalize(", 5") == " 5"
  {
    var s, t := ", 5", " 5";
    assert !IsSpace(s[0]) && !IsSpace(s[|s| - 1]);
    StripKeepsTrimmed(s);
    assert s[0] == ',' && s[1..] == t;
    assert RemoveCommas(s) == RemoveCommas(t);
    RemoveCommasKeepsCommaFree(t);
  }

  /** " 5" strips to "5", which has no comma to delete. */
  lemma SpaceFive()
    ensures Normalize(" 5") == "5"
  {
    var t := " 5";
    assert IsSpace(t[0]) && !IsSpace(t[1]);
    assert LeadingSpaces(t) == 1 by {
      assert t[1..] == "5";
    }
    assert TrailingSpaces(t) == 0;
    assert t[1..2] == "5";
    RemoveCommasKeepsCommaFree("5");
  }
}
