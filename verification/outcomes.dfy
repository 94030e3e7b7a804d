/** Result shapes shared by the whole model.

    Rust code either returns a value, returns an error, or panics (an
    `unwrap` on `None`, an arithmetic overflow in a debug build, a failed
    `parse().unwrap()`).  `Outcome` keeps the three apart so that a panic is
    never mistaken for a returned error or a success.
 */
module Outcomes {

  datatype Option<+T> = None | Some(value: T)

  datatype Outcome<+T, +E> =
    | Ok(value: T)
    | Err(error: E)
    | Panic(reason: string)

  /** `u8` of the source. */
  type u8 = x: int | 0 <= x < 256

  /** `u16` of the source. */
  type u16 = x: int | 0 <= x < 65536

  /** `i64` of the source. */
  const I64Min: int := -0x8000_0000_0000_0000
  const I64Max: int := 0x7FFF_FFFF_FFFF_FFFF
}

/** Small string helpers used by several modules. */
module Text {

  predicate StartsWith(s: string, prefix: string) {
    |prefix| <= |s| && s[..|prefix|] == prefix
  }

  /** Joins `parts` with `sep` between neighbours, no leading or trailing separator. */
  function Join(sep: string, parts: seq<string>): string
    decreases |parts|
  {
    if |parts| == 0 then ""
    else if |parts| == 1 then parts[0]
    else Join(sep, parts[..|parts| - 1]) + sep + parts[|parts| - 1]
  }

  /** Adding a part at the end adds one separator and the part. */
  lemma JoinSnoc(sep: string, parts: seq<string>, x: string)
    requires |parts| > 0
    ensures Join(sep, parts + [x]) == Join(sep, parts) + sep + x
  {
    assert (parts + [x])[..|parts|] == parts;
  }

  predicate IsAsciiDigit(c: char) { '0' <= c <= '9' }

  predicate IsAsciiLetter(c: char) { ('a' <= c <= 'z') || ('A' <= c <= 'Z') }

  /** ASCII lower-casing, as used by case-insensitive keyword matches. */
  function AsciiLower(c: char): char {
    if 'A' <= c <= 'Z' then (c as int + 32) as char else c
  }

  predicate EqualsIgnoreAsciiCase(s: string, t: string) {
    |s| == |t| && forall i :: 0 <= i < |s| ==> AsciiLower(s[i]) == AsciiLower(t[i])
  }
}
