/** The string operations the loaders use: String.Split with RemoveEmptyEntries
    on ' ' (OBJ lines) and on ": " / ":" (attachment lines), ToUpper on keys and
    Replace('_', ' ') on names. */
module Text {

  /** The longest prefix of `s` that does not contain `c`. */
  function Prefix(s: string, c: char): (w: string)
    ensures w <= s && c !in w
    ensures |w| < |s| ==> s[|w|] == c
  {
    if s == [] || s[0] == c then [] else [s[0]] + Prefix(s[1..], c)
  }

  /** `line.Split(new char[] { ' ' }, StringSplitOptions.RemoveEmptyEntries)`. */
  function Tokens(s: string): (ts: seq<string>)
    ensures forall k :: 0 <= k < |ts| ==> ts[k] != [] && ' ' !in ts[k]
    decreases |s|
  {
    if s == [] then []
    else if s[0] == ' ' then Tokens(s[1..])
    else var w := Prefix(s, ' '); [w] + Tokens(s[|w|..])
  }

  /** A string that splits into itself alone: non-empty and free of spaces. */
  predicate IsWord(s: string) {
    s != [] && ' ' !in s
  }

  /** A line has no tokens exactly when every character of it is a space. */
  lemma {:induction false} NoTokensIffBlank(s: string)
    ensures Tokens(s) == [] <==> forall k :: 0 <= k < |s| ==> s[k] == ' '
    decreases |s|
  {
    if s != [] {
      NoTokensIffBlank(s[1..]);
      if s[0] == ' ' {
        assert forall k :: 1 <= k < |s| ==> s[k] == s[1..][k - 1];
      }
    }
  }

  /** A word splits into itself. */
  lemma {:induction false} TokensOfWord(w: string)
    requires IsWord(w)
    ensures Tokens(w) == [w]
  {
    assert Prefix(w, ' ') == w by { PrefixOfFree(w, ' '); }
    assert w[|w|..] == [];
  }

  lemma {:induction false} PrefixOfFree(s: string, c: char)
    requires c !in s
    ensures Prefix(s, c) == s
    decreases |s|
  {
    if s != [] {
      assert c !in s[1..];
      PrefixOfFree(s[1..], c);
    }
  }

  lemma {:induction false} PrefixBeforeSeparator(a: string, c: char, b: string)
    requires c !in a
    ensures Prefix(a + [c] + b, c) == a
    decreases |a|
  {
    if a != [] {
      assert (a + [c] + b)[1..] == a[1..] + [c] + b;
      assert c !in a[1..];
      PrefixBeforeSeparator(a[1..], c, b);
    }
  }

  /** A directive written as `keyword + " " + argument` splits back into the two words. */
  lemma {:induction false} TokensOfDirective(keyword: string, arg: string)
    requires IsWord(keyword) && IsWord(arg)
    ensures Tokens(keyword + " " + arg) == [keyword, arg]
  {
    var s := keyword + " " + arg;
    PrefixBeforeSeparator(keyword, ' ', arg);
    assert s[|keyword|..] == " " + arg;
    assert (" " + arg)[1..] == arg;
    TokensOfWord(arg);
  }

  /** `line.Split(new string[] { ": ", ":" }, StringSplitOptions.RemoveEmptyEntries)`:
      at a colon the two-character separator is tried first. */
  function Fields(s: string): (fs: seq<string>)
    ensures forall k :: 0 <= k < |fs| ==> fs[k] != [] && ':' !in fs[k]
    decreases |s|
  {
    if s == [] then []
    else if s[0] == ':' then
      if |s| >= 2 && s[1] == ' ' then Fields(s[2..]) else Fields(s[1..])
    else var p := Prefix(s, ':'); [p] + Fields(s[|p|..])
  }

  /** A `KEY: VALUE` line splits into its key and its value (the value may
      itself start with a space, which is kept). */
  lemma {:induction false} FieldsOfPair(key: string, value: string)
    requires key != [] && ':' !in key
    requires value != [] && ':' !in value
    ensures Fields(key + ": " + value) == [key, value]
  {
    var s := key + ": " + value;
    assert s == key + [':'] + (" " + value);
    PrefixBeforeSeparator(key, ':', " " + value);
    assert s[|key|..] == ": " + value;
    assert (": " + value)[2..] == value;
    assert Fields(": " + value) == Fields(value);
    FieldsOfKey(value);
    assert Fields(s) == [key] + Fields(": " + value);
  }

  /** A line that is a key alone splits into that key. */
  lemma {:induction false} FieldsOfKey(key: string)
    requires key != [] && ':' !in key
    ensures Fields(key) == [key]
  {
    PrefixOfFree(key, ':');
    assert key[|key|..] == [];
  }

  /** ASCII stand-in for ToUpper. */
  function UpperChar(c: char): char {
    if 'a' <= c <= 'z' then (c as int - 32) as char else c
  }

  function Upper(s: string): string {
    seq(|s|, k requires 0 <= k < |s| => UpperChar(s[k]))
  }

  /** A string without lower-case letters is its own upper case. */
  lemma UpperOfUpper(s: string)
    requires forall k :: 0 <= k < |s| ==> !('a' <= s[k] <= 'z')
    ensures Upper(s) == s
  {
  }

  /** `s.Replace(from, to)` for characters. */
  function ReplaceChar(s: string, from: char, to: char): string {
    seq(|s|, k requires 0 <= k < |s| => if s[k] == from then to else s[k])
  }
}
