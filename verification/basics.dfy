/**
 Small vocabulary shared by the Storytime model: an optional value, the
 JavaScript `String.prototype.endsWith` test, and the ASCII character classes
 the marker regular expression is built from.
 */
module Basics {

  /** An absent-or-present value; stands in for TypeScript's `T | null` and `T | undefined`. */
  datatype Option<+T> = None | Some(value: T)

  /** The log file extension (the lens provider's gate) and the story file extension. */
  const LogSuffix: string := ".txt"
  const StorySuffix: string := ".story"

  /** `s.endsWith(suffix)`: the last |suffix| characters of `s` are `suffix`. */
  predicate EndsWith(s: string, suffix: string) {
    |suffix| <= |s| && s[|s| - |suffix|..] == suffix
  }

  /** A word character of a non-unicode JavaScript regular expression (`\w`): `[A-Za-z0-9_]`. */
  predicate IsWordChar(c: char) {
    ('a' <= c <= 'z') || ('A' <= c <= 'Z') || ('0' <= c <= '9') || c == '_'
  }

  /** A decimal digit as `\d` matches it: ASCII `0-9` only. */
  predicate IsDigit(c: char) {
    '0' <= c <= '9'
  }

  /**
   Case folding of a non-unicode case-insensitive regular expression, restricted
   to what it does to ASCII: an upper-case ASCII letter becomes its lower-case
   form and every other character is left alone (no non-ASCII character is ever
   folded onto an ASCII one in that mode).
   */
  function LowerAscii(c: char): (r: char)
    ensures IsWordChar(r) <==> IsWordChar(c)
    ensures 'a' <= r <= 'z' <==> ('a' <= c <= 'z' || 'A' <= c <= 'Z')
    ensures !('A' <= c <= 'Z') ==> r == c
  {
    if 'A' <= c <= 'Z' then (c as int + 32) as char else c
  }

  /**
   A path that ends in a name keeps that name's suffix: for a suffix without a
   `/`, joining a folder and a name ends with the suffix exactly when the name does.
   */
  lemma {:induction false} JoinedPathEndsWith(folder: string, name: string, suffix: string)
    requires '/' !in suffix
    ensures EndsWith(folder + "/" + name, suffix) <==> EndsWith(name, suffix)
  {
    var p := folder + "/" + name;
    assert p[|p| - |name|..] == name;
    if |suffix| <= |name| {
      assert p[|p| - |suffix|..] == name[|name| - |suffix|..];
    } else if |suffix| <= |p| {
      var k := |suffix| - |name| - 1;
      assert p[|p| - |suffix|..][k] == '/';
      assert suffix[k] != '/';
    }
  }
}
