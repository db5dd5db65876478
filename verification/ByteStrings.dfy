/** Byte strings: Go's `[]byte` and `string`, one character per byte. */
module ByteStrings {

  type byte = c: char | c as int < 256 witness 'a'
  type Bytes = seq<byte>

  datatype Option<+T> = None | Some(value: T) {
    function GetOr(default: T): T {
      if Some? then value else default
    }
  }

  const CR: byte := '\r'
  const LF: byte := '\n'
  const CRLF: Bytes := "\r\n"

  function UpperByte(c: byte): byte {
    if 'a' <= c <= 'z' then (c as int - 32) as char else c
  }

  /** A text constant as bytes; characters outside one byte do not occur in them. */
  function Text(s: string): Bytes {
    seq(|s|, i requires 0 <= i < |s| => if s[i] as int < 256 then s[i] else '?')
  }

  /** `strings.ToUpper` on ASCII text; other bytes are left alone. */
  function Upper(s: Bytes): Bytes {
    seq(|s|, i requires 0 <= i < |s| => UpperByte(s[i]))
  }

  lemma Regroup(a: Bytes, b: Bytes, c: Bytes, d: Bytes, more: Bytes)
    ensures a + b + c + d + more == a + b + c + (d + more)
  {
  }
}
