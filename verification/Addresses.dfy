/** Values shared by every module: optional results, and IPv4 addresses with
    their text form. */
module Prelude {
  datatype Option<+T> = None | Some(value: T)
}

/** The text of an address, as the Go library reads and writes it. `parse` is
    net.ParseIP followed by To4 (None for anything that is not IPv4), `render`
    is IP.String on an IPv4 address. Every result holds for any such pair; the
    few that need a law of the library ask for `Lawful`. */
module Addresses {
  import opened Prelude

  newtype IPv4 = x: int | 0 <= x < 0x1_0000_0000

  datatype Codec = Codec(parse: string -> Option<IPv4>, render: IPv4 -> string) {
    /** Writing an address and reading it back gives the address. */
    ghost predicate Lawful() {
      forall a: IPv4 :: parse(render(a)) == Some(a)
    }

    predicate Legal(s: string) {
      parse(s).Some?
    }

    /** `s` is exactly how the library itself would write the address it reads
        from `s`. The IPv4-mapped notation of section 2.5.5.2 of RFC 4291 is
        legal but not canonical. */
    predicate Canonical(s: string) {
      parse(s).Some? && render(parse(s).value) == s
    }
  }
}
