/**
 * The Unicode 15.0.0 full case foldings (status C and F), written as runs of
 * code points that fold the same way. A code point in no run folds to itself.
 * The table lists 1530 code points; the runs below cover exactly those.
 */
module CaseFoldTable {

  /** A Unicode scalar value, the range of a Rust `char`. */
  predicate Scalar(p: int) {
    0 <= p < 0xD800 || 0xE000 <= p < 0x110000
  }

  /** Code points 0x0 up to 0x180. */
  function LatinBasic(p: int): seq<int> {
    if 0x41 <= p <= 0x5A then [p + 0x20]
    else if p == 0xB5 then [0x3BC]
    else if 0xC0 <= p <= 0xD6 then [p + 0x20]
    else if 0xD8 <= p <= 0xDE then [p + 0x20]
    else if p == 0xDF then [0x73, 0x73]
    else if 0x100 <= p <= 0x12E && p % 2 == 0 then [p + 0x1]
    else if p == 0x130 then [0x69, 0x307]
    else if 0x132 <= p <= 0x136 && p % 2 == 0 then [p + 0x1]
    else if 0x139 <= p <= 0x147 && p % 2 == 1 then [p + 0x1]
    else if p == 0x149 then [0x2BC, 0x6E]
    else if 0x14A <= p <= 0x176 && p % 2 == 0 then [p + 0x1]
    else if p == 0x178 then [0xFF]
    else if 0x179 <= p <= 0x17D && p % 2 == 1 then [p + 0x1]
    else if p == 0x17F then [0x73]
    else [p]
  }

  /** Code points 0x180 up to 0x1A0. */
  function LatinHooked(p: int): seq<int> {
    if p == 0x181 then [0x253]
    else if 0x182 <= p <= 0x184 && p % 2 == 0 then [p + 0x1]
    else if p == 0x186 then [0x254]
    else if p == 0x187 then [0x188]
    else if 0x189 <= p <= 0x18A then [p + 0xCD]
    else if p == 0x18B then [0x18C]
    else if p == 0x18E then [0x1DD]
    else if p == 0x18F then [0x259]
    else if p == 0x190 then [0x25B]
    else if p == 0x191 then [0x192]
    else if p == 0x193 then [0x260]
    else if p == 0x194 then [0x263]
    else if p == 0x196 then [0x269]
    else if p == 0x197 then [0x268]
    else if p == 0x198 then [0x199]
    else if p == 0x19C then [0x26F]
    else if p == 0x19D then [0x272]
    else if p == 0x19F then [0x275]
    else [p]
  }

  /** Code points 0x1A0 up to 0x1C4. */
  function LatinExtendedB(p: int): seq<int> {
    if 0x1A0 <= p <= 0x1A4 && p % 2 == 0 then [p + 0x1]
    else if p == 0x1A6 then [0x280]
    else if p == 0x1A7 then [0x1A8]
    else if p == 0x1A9 then [0x283]
    else if p == 0x1AC then [0x1AD]
    else if p == 0x1AE then [0x288]
    else if p == 0x1AF then [0x1B0]
    else if 0x1B1 <= p <= 0x1B2 then [p + 0xD9]
    else if 0x1B3 <= p <= 0x1B5 && p % 2 == 1 then [p + 0x1]
    else if p == 0x1B7 then [0x292]
    else if p == 0x1B8 then [0x1B9]
    else if p == 0x1BC then [0x1BD]
    else [p]
  }

  /** Code points 0x1C4 up to 0x220. */
  function LatinDigraphs(p: int): seq<int> {
    if p == 0x1C4 then [0x1C6]
    else if p == 0x1C5 then [0x1C6]
    else if p == 0x1C7 then [0x1C9]
    else if p == 0x1C8 then [0x1C9]
    else if p == 0x1CA then [0x1CC]
    else if 0x1CB <= p <= 0x1DB && p % 2 == 1 then [p + 0x1]
    else if 0x1DE <= p <= 0x1EE && p % 2 == 0 then [p + 0x1]
    else if p == 0x1F0 then [0x6A, 0x30C]
    else if p == 0x1F1 then [0x1F3]
    else if 0x1F2 <= p <= 0x1F4 && p % 2 == 0 then [p + 0x1]
    else if p == 0x1F6 then [0x195]
    else if p == 0x1F7 then [0x1BF]
    else if 0x1F8 <= p <= 0x21E && p % 2 == 0 then [p + 0x1]
    else [p]
  }

  /** Code points 0x220 up to 0x250. */
  function LatinTail(p: int): seq<int> {
    if p == 0x220 then [0x19E]
    else if 0x222 <= p <= 0x232 && p % 2 == 0 then [p + 0x1]
    else if p == 0x23A then [0x2C65]
    else if p == 0x23B then [0x23C]
    else if p == 0x23D then [0x19A]
    else if p == 0x23E then [0x2C66]
    else if p == 0x241 then [0x242]
    else if p == 0x243 then [0x180]
    else if p == 0x244 then [0x289]
    else if p == 0x245 then [0x28C]
    else if 0x246 <= p <= 0x24E && p % 2 == 0 then [p + 0x1]
    else [p]
  }

  /** Code points 0x250 up to 0x400. */
  function Greek(p: int): seq<int> {
    if p == 0x345 then [0x3B9]
    else if 0x370 <= p <= 0x372 && p % 2 == 0 then [p + 0x1]
    else if p == 0x376 then [0x377]
    else if p == 0x37F then [0x3F3]
    else if p == 0x386 then [0x3AC]
    else if 0x388 <= p <= 0x38A then [p + 0x25]
    else if p == 0x38C then [0x3CC]
    else if 0x38E <= p <= 0x38F then [p + 0x3F]
    else if p == 0x390 then [0x3B9, 0x308, 0x301]
    else if 0x391 <= p <= 0x3A1 then [p + 0x20]
    else if 0x3A3 <= p <= 0x3AB then [p + 0x20]
    else if p == 0x3B0 then [0x3C5, 0x308, 0x301]
    else if p == 0x3C2 then [0x3C3]
    else if p == 0x3CF then [0x3D7]
    else if p == 0x3D0 then [0x3B2]
    else if p == 0x3D1 then [0x3B8]
    else if p == 0x3D5 then [0x3C6]
    else if p == 0x3D6 then [0x3C0]
    else if 0x3D8 <= p <= 0x3EE && p % 2 == 0 then [p + 0x1]
    else if p == 0x3F0 then [0x3BA]
    else if p == 0x3F1 then [0x3C1]
    else if p == 0x3F4 then [0x3B8]
    else if p == 0x3F5 then [0x3B5]
    else if p == 0x3F7 then [0x3F8]
    else if p == 0x3F9 then [0x3F2]
    else if p == 0x3FA then [0x3FB]
    else if 0x3FD <= p <= 0x3FF then [p - 0x82]
    else [p]
  }

  /** Code points 0x400 up to 0x1C80. */
  function Cyrillic(p: int): seq<int> {
    if 0x400 <= p <= 0x40F then [p + 0x50]
    else if 0x410 <= p <= 0x42F then [p + 0x20]
    else if 0x460 <= p <= 0x480 && p % 2 == 0 then [p + 0x1]
    else if 0x48A <= p <= 0x4BE && p % 2 == 0 then [p + 0x1]
    else if p == 0x4C0 then [0x4CF]
    else if 0x4C1 <= p <= 0x4CD && p % 2 == 1 then [p + 0x1]
    else if 0x4D0 <= p <= 0x52E && p % 2 == 0 then [p + 0x1]
    else if 0x531 <= p <= 0x556 then [p + 0x30]
    else if p == 0x587 then [0x565, 0x582]
    else if 0x10A0 <= p <= 0x10C5 then [p + 0x1C60]
    else if p == 0x10C7 then [0x2D27]
    else if p == 0x10CD then [0x2D2D]
    else if 0x13F8 <= p <= 0x13FD then [p - 0x8]
    else [p]
  }

  /** Code points 0x1C80 up to 0x1E00. */
  function Georgian(p: int): seq<int> {
    if p == 0x1C80 then [0x432]
    else if p == 0x1C81 then [0x434]
    else if p == 0x1C82 then [0x43E]
    else if 0x1C83 <= p <= 0x1C84 then [p - 0x1842]
    else if p == 0x1C85 then [0x442]
    else if p == 0x1C86 then [0x44A]
    else if p == 0x1C87 then [0x463]
    else if p == 0x1C88 then [0xA64B]
    else if 0x1C90 <= p <= 0x1CBA then [p - 0xBC0]
    else if 0x1CBD <= p <= 0x1CBF then [p - 0xBC0]
    else [p]
  }

  /** Code points 0x1E00 up to 0x1F00. */
  function LatinAdditional(p: int): seq<int> {
    if 0x1E00 <= p <= 0x1E94 && p % 2 == 0 then [p + 0x1]
    else if p == 0x1E96 then [0x68, 0x331]
    else if p == 0x1E97 then [0x74, 0x308]
    else if p == 0x1E98 then [0x77, 0x30A]
    else if p == 0x1E99 then [0x79, 0x30A]
    else if p == 0x1E9A then [0x61, 0x2BE]
    else if p == 0x1E9B then [0x1E61]
    else if p == 0x1E9E then [0x73, 0x73]
    else if 0x1EA0 <= p <= 0x1EFE && p % 2 == 0 then [p + 0x1]
    else [p]
  }

  /** Code points 0x1F00 up to 0x1F80. */
  function GreekBreathings(p: int): seq<int> {
    if 0x1F08 <= p <= 0x1F0F then [p - 0x8]
    else if 0x1F18 <= p <= 0x1F1D then [p - 0x8]
    else if 0x1F28 <= p <= 0x1F2F then [p - 0x8]
    else if 0x1F38 <= p <= 0x1F3F then [p - 0x8]
    else if 0x1F48 <= p <= 0x1F4D then [p - 0x8]
    else if p == 0x1F50 then [0x3C5, 0x313]
    else if p == 0x1F52 then [0x3C5, 0x313, 0x300]
    else if p == 0x1F54 then [0x3C5, 0x313, 0x301]
    else if p == 0x1F56 then [0x3C5, 0x313, 0x342]
    else if 0x1F59 <= p <= 0x1F5F && p % 2 == 1 then [p - 0x8]
    else if 0x1F68 <= p <= 0x1F6F then [p - 0x8]
    else [p]
  }

  /** Code points 0x1F80 up to 0x1FB0. */
  function GreekIotas(p: int): seq<int> {
    if 0x1F80 <= p <= 0x1F87 then [p - 0x80, 0x3B9]
    else if 0x1F88 <= p <= 0x1F8F then [p - 0x88, 0x3B9]
    else if 0x1F90 <= p <= 0x1F97 then [p - 0x70, 0x3B9]
    else if 0x1F98 <= p <= 0x1F9F then [p - 0x78, 0x3B9]
    else if 0x1FA0 <= p <= 0x1FA7 then [p - 0x40, 0x3B9]
    else if 0x1FA8 <= p <= 0x1FAF then [p - 0x48, 0x3B9]
    else [p]
  }

  /** Code points 0x1FB0 up to 0x1FC0. */
  function GreekAlphas(p: int): seq<int> {
    if p == 0x1FB2 then [0x1F70, 0x3B9]
    else if p == 0x1FB3 then [0x3B1, 0x3B9]
    else if p == 0x1FB4 then [0x3AC, 0x3B9]
    else if p == 0x1FB6 then [0x3B1, 0x342]
    else if p == 0x1FB7 then [0x3B1, 0x342, 0x3B9]
    else if 0x1FB8 <= p <= 0x1FB9 then [p - 0x8]
    else if 0x1FBA <= p <= 0x1FBB then [p - 0x4A]
    else if p == 0x1FBC then [0x3B1, 0x3B9]
    else if p == 0x1FBE then [0x3B9]
    else [p]
  }

  /** Code points 0x1FC0 up to 0x1FE0. */
  function GreekEtas(p: int): seq<int> {
    if p == 0x1FC2 then [0x1F74, 0x3B9]
    else if p == 0x1FC3 then [0x3B7, 0x3B9]
    else if p == 0x1FC4 then [0x3AE, 0x3B9]
    else if p == 0x1FC6 then [0x3B7, 0x342]
    else if p == 0x1FC7 then [0x3B7, 0x342, 0x3B9]
    else if 0x1FC8 <= p <= 0x1FCB then [p - 0x56]
    else if p == 0x1FCC then [0x3B7, 0x3B9]
    else if p == 0x1FD2 then [0x3B9, 0x308, 0x300]
    else if p == 0x1FD3 then [0x3B9, 0x308, 0x301]
    else if p == 0x1FD6 then [0x3B9, 0x342]
    else if p == 0x1FD7 then [0x3B9, 0x308, 0x342]
    else if 0x1FD8 <= p <= 0x1FD9 then [p - 0x8]
    else if 0x1FDA <= p <= 0x1FDB then [p - 0x64]
    else [p]
  }

  /** Code points 0x1FE0 up to 0x1FF0. */
  function GreekUpsilons(p: int): seq<int> {
    if p == 0x1FE2 then [0x3C5, 0x308, 0x300]
    else if p == 0x1FE3 then [0x3C5, 0x308, 0x301]
    else if p == 0x1FE4 then [0x3C1, 0x313]
    else if p == 0x1FE6 then [0x3C5, 0x342]
    else if p == 0x1FE7 then [0x3C5, 0x308, 0x342]
    else if 0x1FE8 <= p <= 0x1FE9 then [p - 0x8]
    else if 0x1FEA <= p <= 0x1FEB then [p - 0x70]
    else if p == 0x1FEC then [0x1FE5]
    else [p]
  }

  /** Code points 0x1FF0 up to 0x2000. */
  function GreekOmegas(p: int): seq<int> {
    if p == 0x1FF2 then [0x1F7C, 0x3B9]
    else if p == 0x1FF3 then [0x3C9, 0x3B9]
    else if p == 0x1FF4 then [0x3CE, 0x3B9]
    else if p == 0x1FF6 then [0x3C9, 0x342]
    else if p == 0x1FF7 then [0x3C9, 0x342, 0x3B9]
    else if 0x1FF8 <= p <= 0x1FF9 then [p - 0x80]
    else if 0x1FFA <= p <= 0x1FFB then [p - 0x7E]
    else if p == 0x1FFC then [0x3C9, 0x3B9]
    else [p]
  }

  /** Code points 0x2000 up to 0x2C60. */
  function Symbols(p: int): seq<int> {
    if p == 0x2126 then [0x3C9]
    else if p == 0x212A then [0x6B]
    else if p == 0x212B then [0xE5]
    else if p == 0x2132 then [0x214E]
    else if 0x2160 <= p <= 0x216F then [p + 0x10]
    else if p == 0x2183 then [0x2184]
    else if 0x24B6 <= p <= 0x24CF then [p + 0x1A]
    else if 0x2C00 <= p <= 0x2C2F then [p + 0x30]
    else [p]
  }

  /** Code points 0x2C60 up to 0xA640. */
  function LatinExtendedC(p: int): seq<int> {
    if p == 0x2C60 then [0x2C61]
    else if p == 0x2C62 then [0x26B]
    else if p == 0x2C63 then [0x1D7D]
    else if p == 0x2C64 then [0x27D]
    else if 0x2C67 <= p <= 0x2C6B && p % 2 == 1 then [p + 0x1]
    else if p == 0x2C6D then [0x251]
    else if p == 0x2C6E then [0x271]
    else if p == 0x2C6F then [0x250]
    else if p == 0x2C70 then [0x252]
    else if p == 0x2C72 then [0x2C73]
    else if p == 0x2C75 then [0x2C76]
    else if 0x2C7E <= p <= 0x2C7F then [p - 0x2A3F]
    else if 0x2C80 <= p <= 0x2CE2 && p % 2 == 0 then [p + 0x1]
    else if 0x2CEB <= p <= 0x2CED && p % 2 == 1 then [p + 0x1]
    else if p == 0x2CF2 then [0x2CF3]
    else [p]
  }

  /** Code points 0xA640 up to 0xA7AA. */
  function LatinExtendedD(p: int): seq<int> {
    if 0xA640 <= p <= 0xA66C && p % 2 == 0 then [p + 0x1]
    else if 0xA680 <= p <= 0xA69A && p % 2 == 0 then [p + 0x1]
    else if 0xA722 <= p <= 0xA72E && p % 2 == 0 then [p + 0x1]
    else if 0xA732 <= p <= 0xA76E && p % 2 == 0 then [p + 0x1]
    else if 0xA779 <= p <= 0xA77B && p % 2 == 1 then [p + 0x1]
    else if p == 0xA77D then [0x1D79]
    else if 0xA77E <= p <= 0xA786 && p % 2 == 0 then [p + 0x1]
    else if p == 0xA78B then [0xA78C]
    else if p == 0xA78D then [0x265]
    else if 0xA790 <= p <= 0xA792 && p % 2 == 0 then [p + 0x1]
    else if 0xA796 <= p <= 0xA7A8 && p % 2 == 0 then [p + 0x1]
    else [p]
  }

  /** Code points 0xA7AA up to 0xAB70. */
  function LatinExtendedDTail(p: int): seq<int> {
    if p == 0xA7AA then [0x266]
    else if p == 0xA7AB then [0x25C]
    else if p == 0xA7AC then [0x261]
    else if p == 0xA7AD then [0x26C]
    else if p == 0xA7AE then [0x26A]
    else if p == 0xA7B0 then [0x29E]
    else if p == 0xA7B1 then [0x287]
    else if p == 0xA7B2 then [0x29D]
    else if p == 0xA7B3 then [0xAB53]
    else if 0xA7B4 <= p <= 0xA7C2 && p % 2 == 0 then [p + 0x1]
    else if p == 0xA7C4 then [0xA794]
    else if p == 0xA7C5 then [0x282]
    else if p == 0xA7C6 then [0x1D8E]
    else if 0xA7C7 <= p <= 0xA7C9 && p % 2 == 1 then [p + 0x1]
    else if p == 0xA7D0 then [0xA7D1]
    else if 0xA7D6 <= p <= 0xA7D8 && p % 2 == 0 then [p + 0x1]
    else if p == 0xA7F5 then [0xA7F6]
    else [p]
  }

  /** Code points 0xAB70 up to 0xFF00. */
  function Ligatures(p: int): seq<int> {
    if 0xAB70 <= p <= 0xABBF then [p - 0x97D0]
    else if p == 0xFB00 then [0x66, 0x66]
    else if p == 0xFB01 then [0x66, 0x69]
    else if p == 0xFB02 then [0x66, 0x6C]
    else if p == 0xFB03 then [0x66, 0x66, 0x69]
    else if p == 0xFB04 then [0x66, 0x66, 0x6C]
    else if p == 0xFB05 then [0x73, 0x74]
    else if p == 0xFB06 then [0x73, 0x74]
    else if p == 0xFB13 then [0x574, 0x576]
    else if p == 0xFB14 then [0x574, 0x565]
    else if p == 0xFB15 then [0x574, 0x56B]
    else if p == 0xFB16 then [0x57E, 0x576]
    else if p == 0xFB17 then [0x574, 0x56D]
    else [p]
  }

  /** Code points 0xFF00 up to 0x110000. */
  function Supplementary(p: int): seq<int> {
    if 0xFF21 <= p <= 0xFF3A then [p + 0x20]
    else if 0x10400 <= p <= 0x10427 then [p + 0x28]
    else if 0x104B0 <= p <= 0x104D3 then [p + 0x28]
    else if 0x10570 <= p <= 0x1057A then [p + 0x27]
    else if 0x1057C <= p <= 0x1058A then [p + 0x27]
    else if 0x1058C <= p <= 0x10592 then [p + 0x27]
    else if 0x10594 <= p <= 0x10595 then [p + 0x27]
    else if 0x10C80 <= p <= 0x10CB2 then [p + 0x40]
    else if 0x118A0 <= p <= 0x118BF then [p + 0x20]
    else if 0x16E40 <= p <= 0x16E5F then [p + 0x20]
    else if 0x1E900 <= p <= 0x1E921 then [p + 0x22]
    else [p]
  }

  /** The folding of one code point: its replacement, or itself. */
  function FoldPoint(p: int): seq<int> {
    if p < 0x180 then LatinBasic(p)
    else if p < 0x1A0 then LatinHooked(p)
    else if p < 0x1C4 then LatinExtendedB(p)
    else if p < 0x220 then LatinDigraphs(p)
    else if p < 0x250 then LatinTail(p)
    else if p < 0x400 then Greek(p)
    else if p < 0x1C80 then Cyrillic(p)
    else if p < 0x1E00 then Georgian(p)
    else if p < 0x1F00 then LatinAdditional(p)
    else if p < 0x1F80 then GreekBreathings(p)
    else if p < 0x1FB0 then GreekIotas(p)
    else if p < 0x1FC0 then GreekAlphas(p)
    else if p < 0x1FE0 then GreekEtas(p)
    else if p < 0x1FF0 then GreekUpsilons(p)
    else if p < 0x2000 then GreekOmegas(p)
    else if p < 0x2C60 then Symbols(p)
    else if p < 0xA640 then LatinExtendedC(p)
    else if p < 0xA7AA then LatinExtendedD(p)
    else if p < 0xAB70 then LatinExtendedDTail(p)
    else if p < 0xFF00 then Ligatures(p)
    else Supplementary(p)
  }

  /** The table does not list `p`. */
  predicate Unmapped(p: int) {
    var folded := FoldPoint(p);
    |folded| == 1 && folded[0] == p
  }

  /** Every code point of a replacement is a scalar the table does not list. */
  ghost predicate Settled(replacement: seq<int>) {
    && 0 < |replacement| <= 3
    && forall i | 0 <= i < |replacement| ::
         Scalar(replacement[i]) && Unmapped(replacement[i])
  }

  lemma LatinBasicSettles(p: int)
    requires 0x0 <= p < 0x180 && Scalar(p)
    ensures Settled(LatinBasic(p))
  {
  }

  lemma LatinHookedSettles(p: int)
    requires 0x180 <= p < 0x1A0 && Scalar(p)
    ensures Settled(LatinHooked(p))
  {
  }

  lemma LatinExtendedBSettles(p: int)
    requires 0x1A0 <= p < 0x1C4 && Scalar(p)
    ensures Settled(LatinExtendedB(p))
  {
  }

  lemma LatinDigraphsSettles(p: int)
    requires 0x1C4 <= p < 0x220 && Scalar(p)
    ensures Settled(LatinDigraphs(p))
  {
  }

  lemma LatinTailSettles(p: int)
    requires 0x220 <= p < 0x250 && Scalar(p)
    ensures Settled(LatinTail(p))
  {
  }

  lemma GreekSettles(p: int)
    requires 0x250 <= p < 0x400 && Scalar(p)
    ensures Settled(Greek(p))
  {
  }

  lemma CyrillicSettles(p: int)
    requires 0x400 <= p < 0x1C80 && Scalar(p)
    ensures Settled(Cyrillic(p))
  {
  }

  lemma GeorgianSettles(p: int)
    requires 0x1C80 <= p < 0x1E00 && Scalar(p)
    ensures Settled(Georgian(p))
  {
  }

  lemma LatinAdditionalSettles(p: int)
    requires 0x1E00 <= p < 0x1F00 && Scalar(p)
    ensures Settled(LatinAdditional(p))
  {
  }

  lemma GreekBreathingsSettles(p: int)
    requires 0x1F00 <= p < 0x1F80 && Scalar(p)
    ensures Settled(GreekBreathings(p))
  {
  }

  lemma GreekIotasSettles(p: int)
    requires 0x1F80 <= p < 0x1FB0 && Scalar(p)
    ensures Settled(GreekIotas(p))
  {
  }

  lemma GreekAlphasSettles(p: int)
    requires 0x1FB0 <= p < 0x1FC0 && Scalar(p)
    ensures Settled(GreekAlphas(p))
  {
  }

  lemma GreekEtasSettles(p: int)
    requires 0x1FC0 <= p < 0x1FE0 && Scalar(p)
    ensures Settled(GreekEtas(p))
  {
  }

  lemma GreekUpsilonsSettles(p: int)
    requires 0x1FE0 <= p < 0x1FF0 && Scalar(p)
    ensures Settled(GreekUpsilons(p))
  {
  }

  lemma GreekOmegasSettles(p: int)
    requires 0x1FF0 <= p < 0x2000 && Scalar(p)
    ensures Settled(GreekOmegas(p))
  {
  }

  lemma SymbolsSettles(p: int)
    requires 0x2000 <= p < 0x2C60 && Scalar(p)
    ensures Settled(Symbols(p))
  {
  }

  lemma LatinExtendedCSettles(p: int)
    requires 0x2C60 <= p < 0xA640 && Scalar(p)
    ensures Settled(LatinExtendedC(p))
  {
  }

  lemma LatinExtendedDSettles(p: int)
    requires 0xA640 <= p < 0xA7AA && Scalar(p)
    ensures Settled(LatinExtendedD(p))
  {
  }

  lemma LatinExtendedDTailSettles(p: int)
    requires 0xA7AA <= p < 0xAB70 && Scalar(p)
    ensures Settled(LatinExtendedDTail(p))
  {
  }

  lemma LigaturesSettles(p: int)
    requires 0xAB70 <= p < 0xFF00 && Scalar(p)
    ensures Settled(Ligatures(p))
  {
  }

  lemma SupplementarySettles(p: int)
    requires 0xFF00 <= p < 0x110000 && Scalar(p)
    ensures Settled(Supplementary(p))
  {
  }

  /** No replacement contains a code point that the table folds further. */
  lemma ReplacementsAreSettled(p: int)
    requires Scalar(p)
    ensures Settled(FoldPoint(p))
  {
    if p < 0x180 {
      LatinBasicSettles(p);
    } else if p < 0x1A0 {
      LatinHookedSettles(p);
    } else if p < 0x1C4 {
      LatinExtendedBSettles(p);
    } else if p < 0x220 {
      LatinDigraphsSettles(p);
    } else if p < 0x250 {
      LatinTailSettles(p);
    } else if p < 0x400 {
      GreekSettles(p);
    } else if p < 0x1C80 {
      CyrillicSettles(p);
    } else if p < 0x1E00 {
      GeorgianSettles(p);
    } else if p < 0x1F00 {
      LatinAdditionalSettles(p);
    } else if p < 0x1F80 {
      GreekBreathingsSettles(p);
    } else if p < 0x1FB0 {
      GreekIotasSettles(p);
    } else if p < 0x1FC0 {
      GreekAlphasSettles(p);
    } else if p < 0x1FE0 {
      GreekEtasSettles(p);
    } else if p < 0x1FF0 {
      GreekUpsilonsSettles(p);
    } else if p < 0x2000 {
      GreekOmegasSettles(p);
    } else if p < 0x2C60 {
      SymbolsSettles(p);
    } else if p < 0xA640 {
      LatinExtendedCSettles(p);
    } else if p < 0xA7AA {
      LatinExtendedDSettles(p);
    } else if p < 0xAB70 {
      LatinExtendedDTailSettles(p);
    } else if p < 0xFF00 {
      LigaturesSettles(p);
    } else {
      SupplementarySettles(p);
    }
  }
}
