/** The few pieces of PHP's value semantics that the settings class relies on:
    truthiness, loose comparison against a fixed word, loose ordering of indices,
    `strtolower` and `array_search` over a list of words. */
module Php {

  datatype Option<T> = None | Some(value: T)

  /** A scalar as the plugin stores it in its settings array.
      Integers, floats and nested arrays are not part of this model. */
  datatype Value = Null | Bool(b: bool) | Str(s: string)

  /** PHP's conversion to boolean: null, false, "" and "0" are falsy, everything else is truthy. */
  function Truthy(v: Value): (t: bool)
    ensures t <==> v !in {Null, Bool(false), Str(""), Str("0")}
  {
    match v
    case Null => false
    case Bool(b) => b
    case Str(s) => s != "" && s != "0"
  }

  /** PHP's `empty($x)` on a variable that exists. */
  predicate Empty(v: Value)
  {
    !Truthy(v)
  }

  predicate IsAsciiLetter(c: char)
  {
    'a' <= c <= 'z' || 'A' <= c <= 'Z'
  }

  /** A string that starts with a letter is never a numeric string in PHP,
      so `==` between it and another string compares the bytes. */
  predicate NonNumeric(w: string)
  {
    |w| > 0 && IsAsciiLetter(w[0])
  }

  /** PHP's loose `$v == w` for a string literal `w` that is not numeric:
      null is compared as "", a boolean compares with the truthiness of `w`,
      and a string compares byte by byte. */
  function LooseEqualsWord(v: Value, w: string): (eq: bool)
    requires NonNumeric(w)
    ensures v.Null? ==> !eq
    ensures v.Bool? ==> (eq <==> v.b)
    ensures v.Str? ==> (eq <==> v.s == w)
  {
    match v
    case Null => w == ""
    case Bool(b) => b == Truthy(Str(w))
    case Str(s) => s == w
  }

  /** `strtolower` on one byte: only 'A'..'Z' change. */
  function LowerChar(c: char): char
  {
    if 'A' <= c <= 'Z' then (c as int + 32) as char else c
  }

  /** `strtolower`: ASCII letters are lowered one by one, every other character is kept. */
  function ToLower(s: string): (r: string)
    ensures |r| == |s|
    ensures forall i :: 0 <= i < |r| ==> !('A' <= r[i] <= 'Z')
    ensures forall i :: 0 <= i < |s| && !('A' <= s[i] <= 'Z') ==> r[i] == s[i]
    ensures forall i :: 0 <= i < |s| && 'A' <= s[i] <= 'Z' ==> 'a' <= r[i] <= 'z' && r[i] as int - s[i] as int == 'a' as int - 'A' as int
  {
    seq(|s|, i requires 0 <= i < |s| => LowerChar(s[i]))
  }

  /** Lowering twice is lowering once. */
  lemma ToLowerIdempotent(s: string)
    ensures ToLower(ToLower(s)) == ToLower(s)
  {
    var r := ToLower(s);
    assert forall i :: 0 <= i < |r| ==> ToLower(r)[i] == r[i];
  }

  /** A string without capitals is its own lower case. */
  lemma ToLowerKeepsLowercase(s: string)
    requires forall i :: 0 <= i < |s| ==> !('A' <= s[i] <= 'Z')
    ensures ToLower(s) == s
  {
    assert forall i :: 0 <= i < |s| ==> ToLower(s)[i] == s[i];
  }

  /** `array_search($needle, $haystack)` on a list whose entries are all non-numeric,
      where loose `==` is plain equality: the first index holding the needle, or
      `false` (here `None`) when there is none. */
  function ArraySearch(needle: string, haystack: seq<string>): (r: Option<nat>)
    requires forall k :: 0 <= k < |haystack| ==> NonNumeric(haystack[k])
    ensures r.None? <==> needle !in haystack
    ensures r.Some? ==> r.value < |haystack| && haystack[r.value] == needle
    ensures r.Some? ==> forall k :: 0 <= k < r.value ==> haystack[k] != needle
  {
    if haystack == [] then None
    else if haystack[0] == needle then Some(0)
    else
      match ArraySearch(needle, haystack[1..])
      case None => None
      case Some(i) => Some(i + 1)
  }

  /** PHP's `$a != 0` where `$a` is an index or `false`: `false != 0` is false. */
  function NotZero(a: Option<nat>): (nz: bool)
  {
    match a
    case None => false
    case Some(i) => i != 0
  }

  /** PHP's `$a >= $b` where each side is an index or `false`: two integers compare
      numerically, and an integer against `false` compares as two booleans
      (the boolean of an index is `$a != 0`). */
  function AtLeast(a: Option<nat>, b: Option<nat>): (ge: bool)
  {
    if a.Some? && b.Some? then a.value >= b.value
    else NotZero(a) || !NotZero(b)
  }
}
