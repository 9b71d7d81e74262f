/**
 The parts of Go's runtime and standard library that the fixture check calls
 but whose internals are not modelled: UTF-8 decoding, the Unicode character
 classes, and JSON re-indentation. Each is a function-valued field, so every
 property proved about the fixture check holds for any behaviour of these
 routines that respects the stated constraints.
 */
module Stdlib {

  /** A Go `byte`. */
  newtype Byte = b: int | 0 <= b < 256

  /** A byte slice, a Go string or a file's content. */
  type Data = seq<Byte>

  /** A decoded Unicode code point (Go's `rune`, as produced by UTF-8 decoding). */
  type Rune = r: int | 0 <= r <= 0x10FFFF

  datatype Option<T> = None | Some(value: T)

  /**
   `utf8.DecodeRune`: the first rune of a non-empty byte sequence and the number
   of bytes it occupies. Go's decoder always consumes at least one byte (an
   invalid byte decodes to U+FFFD with width 1) and never more than are there.
   */
  type RuneDecoder = f: Data -> (Rune, nat) | forall s: Data :: s != [] ==> 1 <= f(s).1 <= |s|
    witness (s: Data) => (0, if s == [] then 0 else 1)

  /**
   The library routines the fixture check relies on:
   - decodeRune: the UTF-8 decoder behind `for _, c := range string(b)`;
   - isPrint, isSpace: `unicode.IsPrint` and `unicode.IsSpace`;
   - indent: `json.Indent(dst, src, "", "  ")`, the re-indented text, or None
     when src is not valid JSON. Being a function it is deterministic.
   */
  datatype Lib = Lib(
    decodeRune: RuneDecoder,
    isPrint: Rune -> bool,
    isSpace: Rune -> bool,
    indent: Data -> Option<Data>)
}
