/** Small shared vocabulary: optional values, results, JavaScript truthiness of
    optional strings, and the lower-casing the account schema applies to emails. */
module Common {

  datatype Option<+T> = None | Some(value: T)

  datatype Result<+T, +E> = Success(value: T) | Failure(error: E)

  datatype Outcome<+E> = Pass | Fail(error: E)

  /** JavaScript truthiness of a string field that may be null/undefined:
      absent and the empty string are both falsy. */
  predicate Truthy(o: Option<string>)
  {
    o.Some? && o.value != ""
  }

  predicate IsUpper(c: char)
  {
    'A' <= c <= 'Z'
  }

  /** Lower-cases one ASCII letter and leaves every other character alone. */
  function LowerChar(c: char): (d: char)
    ensures !IsUpper(d)
    ensures IsUpper(c) ==> d as int == c as int + 32
    ensures !IsUpper(c) ==> d == c
  {
    if IsUpper(c) then (c as int + 32) as char else c
  }

  /** The schema's `lowercase: true` setter, over ASCII letters. */
  function Lower(s: string): (r: string)
    ensures |r| == |s|
    ensures forall i :: 0 <= i < |r| ==> !IsUpper(r[i])
    ensures forall i :: 0 <= i < |s| && !IsUpper(s[i]) ==> r[i] == s[i]
    ensures forall i :: 0 <= i < |s| && IsUpper(s[i]) ==> r[i] as int == s[i] as int + 32
  {
    seq(|s|, i requires 0 <= i < |s| => LowerChar(s[i]))
  }

  /** The UTF-16 code units of one character: two for a character outside
      the Basic Multilingual Plane (a surrogate pair), one otherwise. */
  function CodeUnits(c: char): nat
  {
    if c as int >= 0x1_0000 then 2 else 1
  }

  /** JavaScript's `.length` of a string: its UTF-16 code units, which is what
      the schema's `minlength` and the form library's `min` count. */
  function Utf16Length(s: string): (n: nat)
    ensures |s| <= n <= 2 * |s|
  {
    if s == [] then 0 else CodeUnits(s[0]) + Utf16Length(s[1..])
  }

  /** On characters of the Basic Multilingual Plane (ASCII included) the
      JavaScript length is the number of characters. */
  lemma {:induction false} Utf16LengthOfBmp(s: string)
    requires forall i :: 0 <= i < |s| ==> s[i] as int < 0x1_0000
    ensures Utf16Length(s) == |s|
  {
    if s != [] {
      Utf16LengthOfBmp(s[1..]);
    }
  }

  /** One character outside the Basic Multilingual Plane has length 2, as
      `"\u{1F600}".length` does. */
  lemma AstralCharLength()
    ensures Utf16Length("\U{1F600}") == 2
  {
    assert "\U{1F600}"[1..] == [];
  }

  /** Lower-casing a string that is already lower-case changes nothing, so a
      stored (lower-cased) email is its own lookup key. */
  lemma LowerIdempotent(s: string)
    ensures Lower(Lower(s)) == Lower(s)
  {
  }

  /** An empty string stays empty and a non-empty one stays non-empty. */
  lemma LowerKeepsEmptiness(s: string)
    ensures (Lower(s) == "") <==> (s == "")
  {
  }
}
