/** Well-formed UTF-8 (RFC 3629, section 4), as strict decoders demand it. */
module Utf8 {
  import opened Common

  predicate Continuation(b: byte) {
    0x80 <= b < 0xC0
  }

  /** Length of the scalar at the front of `s`, or 0 when there is none. */
  function ScalarLength(s: seq<byte>): nat {
    if s == [] then 0
    else if s[0] < 0x80 then 1
    else if |s| < 2 || !Continuation(s[1]) then 0
    else if 0xC2 <= s[0] < 0xE0 then 2
    else if |s| < 3 || !Continuation(s[2]) then 0
    else if s[0] == 0xE0 && s[1] >= 0xA0 then 3
    else if (0xE1 <= s[0] < 0xED) || 0xEE <= s[0] < 0xF0 then 3
    else if s[0] == 0xED && s[1] < 0xA0 then 3
    else if |s| < 4 || !Continuation(s[3]) then 0
    else if s[0] == 0xF0 && s[1] >= 0x90 then 4
    else if 0xF1 <= s[0] < 0xF4 then 4
    else if s[0] == 0xF4 && s[1] < 0x90 then 4
    else 0
  }

  predicate Valid(s: seq<byte>)
    decreases |s|
  {
    s == [] || (var n := ScalarLength(s); 0 < n <= |s| && Valid(s[n..]))
  }
}
