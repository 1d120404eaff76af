/**
 Pages, blocks and protections, as src/syscall/mm.c defines them.
 */
module Pages {

  const PAGE_SIZE := 0x1000
  const PAGES := 0x10_0000
  const PAGES_PER_BLOCK := 16

  const SPACE_HIGH := 0x8000_0000   // ADDRESS_SPACE_HIGH

  datatype Prot = Prot(read: bool, write: bool, exec: bool)

  function BlockOf(p: int): int {
    p / PAGES_PER_BLOCK
  }
}
