/** White space and trimming as Rust's `str::trim` does it. */
module Text {

  /** The characters that Rust's `char::is_whitespace` accepts. */
  predicate IsSpace(c: char) {
    || '\U{9}' <= c <= '\U{D}' || c == ' ' || c == '\U{85}' || c == '\U{A0}' || c == '\U{1680}'
    || '\U{2000}' <= c <= '\U{200A}' || c == '\U{2028}' || c == '\U{2029}' || c == '\U{202F}' || c == '\U{205F}'
    || c == '\U{3000}'
  }

  /** How many white-space characters `s` starts with. */
  function Leading(s: string): (k: nat)
    ensures k <= |s|
  {
    if s != "" && IsSpace(s[0]) then 1 + Leading(s[1..]) else 0
  }

  function TrimStart(s: string): string { s[Leading(s)..] }

  function TrimEnd(s: string): string {
    if s != "" && IsSpace(s[|s| - 1]) then TrimEnd(s[..|s| - 1]) else s
  }

  function Trim(s: string): string { TrimEnd(TrimStart(s)) }
}
