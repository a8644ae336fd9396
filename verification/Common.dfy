/** Small vocabulary shared by the models. */
module Common {

  datatype Option<+T> = None | Some(value: T)

  function Least(a: nat, b: nat): nat {
    if a < b then a else b
  }

  /** The first `ch` of a text, or the text's length. */
  function Find(s: string, ch: char): (n: nat)
    ensures n <= |s| && (n < |s| ==> s[n] == ch) && forall i :: 0 <= i < n ==> s[i] != ch
  {
    if s == [] || s[0] == ch then 0 else 1 + Find(s[1..], ch)
  }

  function Lower(ch: char): char {
    if 'A' <= ch <= 'Z' then (ch as int - 'A' as int + 'a' as int) as char else ch
  }
}
