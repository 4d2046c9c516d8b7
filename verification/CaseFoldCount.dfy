/** How many code points the folding table lists. */
module CaseFoldCount {
  import opened CaseFoldTable
  import opened CaseFold

  /** The listed code points from `lo` up to `hi`. */
  ghost function Count(lo: int, hi: int): nat
    decreases hi - lo
  {
    if lo >= hi then 0 else Count(lo, hi - 1) + if Unmapped(hi - 1) then 0 else 1
  }

  lemma {:induction false} CountSplit(lo: int, mid: int, hi: int)
    requires lo <= mid <= hi
    ensures Count(lo, hi) == Count(lo, mid) + Count(mid, hi)
    decreases hi - mid
  {
    hide Unmapped;
    if mid < hi {
      CountSplit(lo, mid, hi - 1);
    }
  }

  lemma {:induction false} ThenAll(from: int, lo: int, hi: int)
    requires from <= lo <= hi && forall p | lo <= p < hi :: !Unmapped(p)
    ensures Count(from, hi) == Count(from, lo) + hi - lo
    decreases hi - lo
  {
    hide Unmapped;
    if lo < hi {
      ThenAll(from, lo, hi - 1);
    }
  }

  lemma {:induction false} ThenNone(from: int, lo: int, hi: int)
    requires from <= lo <= hi && forall p | lo <= p < hi :: Unmapped(p)
    ensures Count(from, hi) == Count(from, lo)
    decreases hi - lo
  {
    hide Unmapped;
    if lo < hi {
      ThenNone(from, lo, hi - 1);
    }
  }

  lemma {:induction false} ThenAlternating(from: int, lo: int, hi: int)
    requires from <= lo <= hi && (hi - lo) % 2 == 0
    requires forall p | lo <= p < hi :: Unmapped(p) <==> (p - lo) % 2 == 1
    ensures Count(from, hi) == Count(from, lo) + (hi - lo) / 2
    decreases hi - lo
  {
    hide Unmapped;
    if lo < hi {
      ThenAlternating(from, lo, hi - 2);
      assert Count(from, hi - 1) == Count(from, hi - 2) + 1;
    }
  }

  lemma CountEmpty(lo: int)
    ensures Count(lo, lo) == 0
  {
  }

  lemma LatinBasicCount1()
    ensures Count(0x0, 0x138) == 86
  {
    hide Count, LatinHooked, LatinExtendedB, LatinDigraphs, LatinTail, Greek, Cyrillic, Georgian, LatinAdditional, GreekBreathings, GreekIotas, GreekAlphas, GreekEtas, GreekUpsilons, GreekOmegas, Symbols, LatinExtendedC, LatinExtendedD, LatinExtendedDTail, Ligatures, Supplementary;
    CountEmpty(0x0);
    ThenNone(0x0, 0x0, 0x41);
    ThenAll(0x0, 0x41, 0x5B);
    ThenNone(0x0, 0x5B, 0xB5);
    ThenAll(0x0, 0xB5, 0xB6);
    ThenNone(0x0, 0xB6, 0xC0);
    ThenAll(0x0, 0xC0, 0xD7);
    ThenNone(0x0, 0xD7, 0xD8);
    ThenAll(0x0, 0xD8, 0xE0);
    ThenNone(0x0, 0xE0, 0x100);
    ThenAlternating(0x0, 0x100, 0x138);
  }

  lemma LatinBasicCount2()
    ensures Count(0x138, 0x180) == 37
  {
    hide Count, LatinHooked, LatinExtendedB, LatinDigraphs, LatinTail, Greek, Cyrillic, Georgian, LatinAdditional, GreekBreathings, GreekIotas, GreekAlphas, GreekEtas, GreekUpsilons, GreekOmegas, Symbols, LatinExtendedC, LatinExtendedD, LatinExtendedDTail, Ligatures, Supplementary;
    CountEmpty(0x138);
    ThenNone(0x138, 0x138, 0x139);
    ThenAlternating(0x138, 0x139, 0x149);
    ThenAll(0x138, 0x149, 0x14B);
    ThenNone(0x138, 0x14B, 0x14C);
    ThenAlternating(0x138, 0x14C, 0x178);
    ThenAll(0x138, 0x178, 0x17A);
    ThenNone(0x138, 0x17A, 0x17B);
    ThenAlternating(0x138, 0x17B, 0x17F);
    ThenAll(0x138, 0x17F, 0x180);
  }

  lemma LatinHookedCount1()
    ensures Count(0x180, 0x192) == 12
  {
    hide Count, LatinBasic, LatinExtendedB, LatinDigraphs, LatinTail, Greek, Cyrillic, Georgian, LatinAdditional, GreekBreathings, GreekIotas, GreekAlphas, GreekEtas, GreekUpsilons, GreekOmegas, Symbols, LatinExtendedC, LatinExtendedD, LatinExtendedDTail, Ligatures, Supplementary;
    CountEmpty(0x180);
    ThenNone(0x180, 0x180, 0x181);
    ThenAll(0x180, 0x181, 0x183);
    ThenNone(0x180, 0x183, 0x184);
    ThenAll(0x180, 0x184, 0x185);
    ThenNone(0x180, 0x185, 0x186);
    ThenAll(0x180, 0x186, 0x188);
    ThenNone(0x180, 0x188, 0x189);
    ThenAll(0x180, 0x189, 0x18C);
    ThenNone(0x180, 0x18C, 0x18E);
    ThenAll(0x180, 0x18E, 0x192);
  }

  lemma LatinHookedCount2()
    ensures Count(0x192, 0x1A0) == 8
  {
    hide Count, LatinBasic, LatinExtendedB, LatinDigraphs, LatinTail, Greek, Cyrillic, Georgian, LatinAdditional, GreekBreathings, GreekIotas, GreekAlphas, GreekEtas, GreekUpsilons, GreekOmegas, Symbols, LatinExtendedC, LatinExtendedD, LatinExtendedDTail, Ligatures, Supplementary;
    CountEmpty(0x192);
    ThenNone(0x192, 0x192, 0x193);
    ThenAll(0x192, 0x193, 0x195);
    ThenNone(0x192, 0x195, 0x196);
    ThenAll(0x192, 0x196, 0x199);
    ThenNone(0x192, 0x199, 0x19C);
    ThenAll(0x192, 0x19C, 0x19E);
    ThenNone(0x192, 0x19E, 0x19F);
    ThenAll(0x192, 0x19F, 0x1A0);
  }

  lemma LatinExtendedBCount1()
    ensures Count(0x1A0, 0x1B4) == 12
  {
    hide Count, LatinBasic, LatinHooked, LatinDigraphs, LatinTail, Greek, Cyrillic, Georgian, LatinAdditional, GreekBreathings, GreekIotas, GreekAlphas, GreekEtas, GreekUpsilons, GreekOmegas, Symbols, LatinExtendedC, LatinExtendedD, LatinExtendedDTail, Ligatures, Supplementary;
    CountEmpty(0x1A0);
    ThenAlternating(0x1A0, 0x1A0, 0x1A6);
    ThenAll(0x1A0, 0x1A6, 0x1A8);
    ThenNone(0x1A0, 0x1A8, 0x1A9);
    ThenAll(0x1A0, 0x1A9, 0x1AA);
    ThenNone(0x1A0, 0x1AA, 0x1AC);
    ThenAll(0x1A0, 0x1AC, 0x1AD);
    ThenNone(0x1A0, 0x1AD, 0x1AE);
    ThenAll(0x1A0, 0x1AE, 0x1B0);
    ThenNone(0x1A0, 0x1B0, 0x1B1);
    ThenAll(0x1A0, 0x1B1, 0x1B4);
  }

  lemma LatinExtendedBCount2()
    ensures Count(0x1B4, 0x1C4) == 4
  {
    hide Count, LatinBasic, LatinHooked, LatinDigraphs, LatinTail, Greek, Cyrillic, Georgian, LatinAdditional, GreekBreathings, GreekIotas, GreekAlphas, GreekEtas, GreekUpsilons, GreekOmegas, Symbols, LatinExtendedC, LatinExtendedD, LatinExtendedDTail, Ligatures, Supplementary;
    CountEmpty(0x1B4);
    ThenNone(0x1B4, 0x1B4, 0x1B5);
    ThenAll(0x1B4, 0x1B5, 0x1B6);
    ThenNone(0x1B4, 0x1B6, 0x1B7);
    ThenAll(0x1B4, 0x1B7, 0x1B9);
    ThenNone(0x1B4, 0x1B9, 0x1BC);
    ThenAll(0x1B4, 0x1BC, 0x1BD);
    ThenNone(0x1B4, 0x1BD, 0x1C4);
  }

  lemma LatinDigraphsCount1()
    ensures Count(0x1C4, 0x1F3) == 26
  {
    hide Count, LatinBasic, LatinHooked, LatinExtendedB, LatinTail, Greek, Cyrillic, Georgian, LatinAdditional, GreekBreathings, GreekIotas, GreekAlphas, GreekEtas, GreekUpsilons, GreekOmegas, Symbols, LatinExtendedC, LatinExtendedD, LatinExtendedDTail, Ligatures, Supplementary;
    CountEmpty(0x1C4);
    ThenAll(0x1C4, 0x1C4, 0x1C6);
    ThenNone(0x1C4, 0x1C6, 0x1C7);
    ThenAll(0x1C4, 0x1C7, 0x1C9);
    ThenNone(0x1C4, 0x1C9, 0x1CA);
    ThenAll(0x1C4, 0x1CA, 0x1CC);
    ThenNone(0x1C4, 0x1CC, 0x1CD);
    ThenAlternating(0x1C4, 0x1CD, 0x1DD);
    ThenNone(0x1C4, 0x1DD, 0x1DE);
    ThenAlternating(0x1C4, 0x1DE, 0x1F0);
    ThenAll(0x1C4, 0x1F0, 0x1F3);
  }

  lemma LatinDigraphsCount2()
    ensures Count(0x1F3, 0x220) == 23
  {
    hide Count, LatinBasic, LatinHooked, LatinExtendedB, LatinTail, Greek, Cyrillic, Georgian, LatinAdditional, GreekBreathings, GreekIotas, GreekAlphas, GreekEtas, GreekUpsilons, GreekOmegas, Symbols, LatinExtendedC, LatinExtendedD, LatinExtendedDTail, Ligatures, Supplementary;
    CountEmpty(0x1F3);
    ThenNone(0x1F3, 0x1F3, 0x1F4);
    ThenAll(0x1F3, 0x1F4, 0x1F5);
    ThenNone(0x1F3, 0x1F5, 0x1F6);
    ThenAll(0x1F3, 0x1F6, 0x1F9);
    ThenNone(0x1F3, 0x1F9, 0x1FA);
    ThenAlternating(0x1F3, 0x1FA, 0x220);
  }

  lemma LatinTailCount1()
    ensures Count(0x220, 0x248) == 19
  {
    hide Count, LatinBasic, LatinHooked, LatinExtendedB, LatinDigraphs, Greek, Cyrillic, Georgian, LatinAdditional, GreekBreathings, GreekIotas, GreekAlphas, GreekEtas, GreekUpsilons, GreekOmegas, Symbols, LatinExtendedC, LatinExtendedD, LatinExtendedDTail, Ligatures, Supplementary;
    CountEmpty(0x220);
    ThenAlternating(0x220, 0x220, 0x234);
    ThenNone(0x220, 0x234, 0x23A);
    ThenAll(0x220, 0x23A, 0x23C);
    ThenNone(0x220, 0x23C, 0x23D);
    ThenAll(0x220, 0x23D, 0x23F);
    ThenNone(0x220, 0x23F, 0x241);
    ThenAll(0x220, 0x241, 0x242);
    ThenNone(0x220, 0x242, 0x243);
    ThenAll(0x220, 0x243, 0x247);
    ThenNone(0x220, 0x247, 0x248);
  }

  lemma LatinTailCount2()
    ensures Count(0x248, 0x250) == 4
  {
    hide Count, LatinBasic, LatinHooked, LatinExtendedB, LatinDigraphs, Greek, Cyrillic, Georgian, LatinAdditional, GreekBreathings, GreekIotas, GreekAlphas, GreekEtas, GreekUpsilons, GreekOmegas, Symbols, LatinExtendedC, LatinExtendedD, LatinExtendedDTail, Ligatures, Supplementary;
    CountEmpty(0x248);
    ThenAlternating(0x248, 0x248, 0x250);
  }

  lemma GreekCount1()
    ensures Count(0x250, 0x387) == 6
  {
    hide Count, LatinBasic, LatinHooked, LatinExtendedB, LatinDigraphs, LatinTail, Cyrillic, Georgian, LatinAdditional, GreekBreathings, GreekIotas, GreekAlphas, GreekEtas, GreekUpsilons, GreekOmegas, Symbols, LatinExtendedC, LatinExtendedD, LatinExtendedDTail, Ligatures, Supplementary;
    CountEmpty(0x250);
    ThenNone(0x250, 0x250, 0x345);
    ThenAll(0x250, 0x345, 0x346);
    ThenNone(0x250, 0x346, 0x370);
    ThenAlternating(0x250, 0x370, 0x374);
    ThenNone(0x250, 0x374, 0x376);
    ThenAll(0x250, 0x376, 0x377);
    ThenNone(0x250, 0x377, 0x37F);
    ThenAll(0x250, 0x37F, 0x380);
    ThenNone(0x250, 0x380, 0x386);
    ThenAll(0x250, 0x386, 0x387);
  }

  lemma GreekCount2()
    ensures Count(0x387, 0x3B1) == 34
  {
    hide Count, LatinBasic, LatinHooked, LatinExtendedB, LatinDigraphs, LatinTail, Cyrillic, Georgian, LatinAdditional, GreekBreathings, GreekIotas, GreekAlphas, GreekEtas, GreekUpsilons, GreekOmegas, Symbols, LatinExtendedC, LatinExtendedD, LatinExtendedDTail, Ligatures, Supplementary;
    CountEmpty(0x387);
    ThenNone(0x387, 0x387, 0x388);
    ThenAll(0x387, 0x388, 0x38B);
    ThenNone(0x387, 0x38B, 0x38C);
    ThenAll(0x387, 0x38C, 0x38D);
    ThenNone(0x387, 0x38D, 0x38E);
    ThenAll(0x387, 0x38E, 0x3A2);
    ThenNone(0x387, 0x3A2, 0x3A3);
    ThenAll(0x387, 0x3A3, 0x3AC);
    ThenNone(0x387, 0x3AC, 0x3B0);
    ThenAll(0x387, 0x3B0, 0x3B1);
  }

  lemma GreekCount3()
    ensures Count(0x3B1, 0x3F4) == 20
  {
    hide Count, LatinBasic, LatinHooked, LatinExtendedB, LatinDigraphs, LatinTail, Cyrillic, Georgian, LatinAdditional, GreekBreathings, GreekIotas, GreekAlphas, GreekEtas, GreekUpsilons, GreekOmegas, Symbols, LatinExtendedC, LatinExtendedD, LatinExtendedDTail, Ligatures, Supplementary;
    CountEmpty(0x3B1);
    ThenNone(0x3B1, 0x3B1, 0x3C2);
    ThenAll(0x3B1, 0x3C2, 0x3C3);
    ThenNone(0x3B1, 0x3C3, 0x3CF);
    ThenAll(0x3B1, 0x3CF, 0x3D2);
    ThenNone(0x3B1, 0x3D2, 0x3D5);
    ThenAll(0x3B1, 0x3D5, 0x3D7);
    ThenNone(0x3B1, 0x3D7, 0x3D8);
    ThenAlternating(0x3B1, 0x3D8, 0x3F0);
    ThenAll(0x3B1, 0x3F0, 0x3F2);
    ThenNone(0x3B1, 0x3F2, 0x3F4);
  }

  lemma GreekCount4()
    ensures Count(0x3F4, 0x400) == 8
  {
    hide Count, LatinBasic, LatinHooked, LatinExtendedB, LatinDigraphs, LatinTail, Cyrillic, Georgian, LatinAdditional, GreekBreathings, GreekIotas, GreekAlphas, GreekEtas, GreekUpsilons, GreekOmegas, Symbols, LatinExtendedC, LatinExtendedD, LatinExtendedDTail, Ligatures, Supplementary;
    CountEmpty(0x3F4);
    ThenAll(0x3F4, 0x3F4, 0x3F6);
    ThenNone(0x3F4, 0x3F6, 0x3F7);
    ThenAll(0x3F4, 0x3F7, 0x3F8);
    ThenNone(0x3F4, 0x3F8, 0x3F9);
    ThenAll(0x3F4, 0x3F9, 0x3FB);
    ThenNone(0x3F4, 0x3FB, 0x3FD);
    ThenAll(0x3F4, 0x3FD, 0x400);
  }

  lemma CyrillicCount1()
    ensures Count(0x400, 0x530) == 148
  {
    hide Count, LatinBasic, LatinHooked, LatinExtendedB, LatinDigraphs, LatinTail, Greek, Georgian, LatinAdditional, GreekBreathings, GreekIotas, GreekAlphas, GreekEtas, GreekUpsilons, GreekOmegas, Symbols, LatinExtendedC, LatinExtendedD, LatinExtendedDTail, Ligatures, Supplementary;
    CountEmpty(0x400);
    ThenAll(0x400, 0x400, 0x430);
    ThenNone(0x400, 0x430, 0x460);
    ThenAlternating(0x400, 0x460, 0x482);
    ThenNone(0x400, 0x482, 0x48A);
    ThenAlternating(0x400, 0x48A, 0x4C0);
    ThenAll(0x400, 0x4C0, 0x4C2);
    ThenNone(0x400, 0x4C2, 0x4C3);
    ThenAlternating(0x400, 0x4C3, 0x4CF);
    ThenNone(0x400, 0x4CF, 0x4D0);
    ThenAlternating(0x400, 0x4D0, 0x530);
  }

  lemma CyrillicCount2()
    ensures Count(0x530, 0x10CE) == 79
  {
    hide Count, LatinBasic, LatinHooked, LatinExtendedB, LatinDigraphs, LatinTail, Greek, Georgian, LatinAdditional, GreekBreathings, GreekIotas, GreekAlphas, GreekEtas, GreekUpsilons, GreekOmegas, Symbols, LatinExtendedC, LatinExtendedD, LatinExtendedDTail, Ligatures, Supplementary;
    CountEmpty(0x530);
    ThenNone(0x530, 0x530, 0x531);
    ThenAll(0x530, 0x531, 0x557);
    ThenNone(0x530, 0x557, 0x587);
    ThenAll(0x530, 0x587, 0x588);
    ThenNone(0x530, 0x588, 0x10A0);
    ThenAll(0x530, 0x10A0, 0x10C6);
    ThenNone(0x530, 0x10C6, 0x10C7);
    ThenAll(0x530, 0x10C7, 0x10C8);
    ThenNone(0x530, 0x10C8, 0x10CD);
    ThenAll(0x530, 0x10CD, 0x10CE);
  }

  lemma CyrillicCount3()
    ensures Count(0x10CE, 0x1C80) == 6
  {
    hide Count, LatinBasic, LatinHooked, LatinExtendedB, LatinDigraphs, LatinTail, Greek, Georgian, LatinAdditional, GreekBreathings, GreekIotas, GreekAlphas, GreekEtas, GreekUpsilons, GreekOmegas, Symbols, LatinExtendedC, LatinExtendedD, LatinExtendedDTail, Ligatures, Supplementary;
    CountEmpty(0x10CE);
    ThenNone(0x10CE, 0x10CE, 0x13F8);
    ThenAll(0x10CE, 0x13F8, 0x13FE);
    ThenNone(0x10CE, 0x13FE, 0x1C80);
  }

  lemma GeorgianCount()
    ensures Count(0x1C80, 0x1E00) == 55
  {
    hide Count, LatinBasic, LatinHooked, LatinExtendedB, LatinDigraphs, LatinTail, Greek, Cyrillic, LatinAdditional, GreekBreathings, GreekIotas, GreekAlphas, GreekEtas, GreekUpsilons, GreekOmegas, Symbols, LatinExtendedC, LatinExtendedD, LatinExtendedDTail, Ligatures, Supplementary;
    CountEmpty(0x1C80);
    ThenAll(0x1C80, 0x1C80, 0x1C89);
    ThenNone(0x1C80, 0x1C89, 0x1C90);
    ThenAll(0x1C80, 0x1C90, 0x1CBB);
    ThenNone(0x1C80, 0x1CBB, 0x1CBD);
    ThenAll(0x1C80, 0x1CBD, 0x1CC0);
    ThenNone(0x1C80, 0x1CC0, 0x1E00);
  }

  lemma LatinAdditionalCount()
    ensures Count(0x1E00, 0x1F00) == 130
  {
    hide Count, LatinBasic, LatinHooked, LatinExtendedB, LatinDigraphs, LatinTail, Greek, Cyrillic, Georgian, GreekBreathings, GreekIotas, GreekAlphas, GreekEtas, GreekUpsilons, GreekOmegas, Symbols, LatinExtendedC, LatinExtendedD, LatinExtendedDTail, Ligatures, Supplementary;
    CountEmpty(0x1E00);
    ThenAlternating(0x1E00, 0x1E00, 0x1E96);
    ThenAll(0x1E00, 0x1E96, 0x1E9C);
    ThenNone(0x1E00, 0x1E9C, 0x1E9E);
    ThenAlternating(0x1E00, 0x1E9E, 0x1F00);
  }

  lemma GreekBreathingsCount1()
    ensures Count(0x1F00, 0x1F4E) == 36
  {
    hide Count, LatinBasic, LatinHooked, LatinExtendedB, LatinDigraphs, LatinTail, Greek, Cyrillic, Georgian, LatinAdditional, GreekIotas, GreekAlphas, GreekEtas, GreekUpsilons, GreekOmegas, Symbols, LatinExtendedC, LatinExtendedD, LatinExtendedDTail, Ligatures, Supplementary;
    CountEmpty(0x1F00);
    ThenNone(0x1F00, 0x1F00, 0x1F08);
    ThenAll(0x1F00, 0x1F08, 0x1F10);
    ThenNone(0x1F00, 0x1F10, 0x1F18);
    ThenAll(0x1F00, 0x1F18, 0x1F1E);
    ThenNone(0x1F00, 0x1F1E, 0x1F28);
    ThenAll(0x1F00, 0x1F28, 0x1F30);
    ThenNone(0x1F00, 0x1F30, 0x1F38);
    ThenAll(0x1F00, 0x1F38, 0x1F40);
    ThenNone(0x1F00, 0x1F40, 0x1F48);
    ThenAll(0x1F00, 0x1F48, 0x1F4E);
  }

  lemma GreekBreathingsCount2()
    ensures Count(0x1F4E, 0x1F80) == 16
  {
    hide Count, LatinBasic, LatinHooked, LatinExtendedB, LatinDigraphs, LatinTail, Greek, Cyrillic, Georgian, LatinAdditional, GreekIotas, GreekAlphas, GreekEtas, GreekUpsilons, GreekOmegas, Symbols, LatinExtendedC, LatinExtendedD, LatinExtendedDTail, Ligatures, Supplementary;
    CountEmpty(0x1F4E);
    ThenNone(0x1F4E, 0x1F4E, 0x1F50);
    ThenAlternating(0x1F4E, 0x1F50, 0x1F58);
    ThenNone(0x1F4E, 0x1F58, 0x1F59);
    ThenAlternating(0x1F4E, 0x1F59, 0x1F61);
    ThenNone(0x1F4E, 0x1F61, 0x1F68);
    ThenAll(0x1F4E, 0x1F68, 0x1F70);
    ThenNone(0x1F4E, 0x1F70, 0x1F80);
  }

  lemma GreekIotasCount()
    ensures Count(0x1F80, 0x1FB0) == 48
  {
    hide Count, LatinBasic, LatinHooked, LatinExtendedB, LatinDigraphs, LatinTail, Greek, Cyrillic, Georgian, LatinAdditional, GreekBreathings, GreekAlphas, GreekEtas, GreekUpsilons, GreekOmegas, Symbols, LatinExtendedC, LatinExtendedD, LatinExtendedDTail, Ligatures, Supplementary;
    CountEmpty(0x1F80);
    ThenAll(0x1F80, 0x1F80, 0x1FB0);
  }

  lemma GreekAlphasCount()
    ensures Count(0x1FB0, 0x1FC0) == 11
  {
    hide Count, LatinBasic, LatinHooked, LatinExtendedB, LatinDigraphs, LatinTail, Greek, Cyrillic, Georgian, LatinAdditional, GreekBreathings, GreekIotas, GreekEtas, GreekUpsilons, GreekOmegas, Symbols, LatinExtendedC, LatinExtendedD, LatinExtendedDTail, Ligatures, Supplementary;
    CountEmpty(0x1FB0);
    ThenNone(0x1FB0, 0x1FB0, 0x1FB2);
    ThenAll(0x1FB0, 0x1FB2, 0x1FB5);
    ThenNone(0x1FB0, 0x1FB5, 0x1FB6);
    ThenAll(0x1FB0, 0x1FB6, 0x1FBD);
    ThenNone(0x1FB0, 0x1FBD, 0x1FBE);
    ThenAll(0x1FB0, 0x1FBE, 0x1FBF);
    ThenNone(0x1FB0, 0x1FBF, 0x1FC0);
  }

  lemma GreekEtasCount()
    ensures Count(0x1FC0, 0x1FE0) == 18
  {
    hide Count, LatinBasic, LatinHooked, LatinExtendedB, LatinDigraphs, LatinTail, Greek, Cyrillic, Georgian, LatinAdditional, GreekBreathings, GreekIotas, GreekAlphas, GreekUpsilons, GreekOmegas, Symbols, LatinExtendedC, LatinExtendedD, LatinExtendedDTail, Ligatures, Supplementary;
    CountEmpty(0x1FC0);
    ThenNone(0x1FC0, 0x1FC0, 0x1FC2);
    ThenAll(0x1FC0, 0x1FC2, 0x1FC5);
    ThenNone(0x1FC0, 0x1FC5, 0x1FC6);
    ThenAll(0x1FC0, 0x1FC6, 0x1FCD);
    ThenNone(0x1FC0, 0x1FCD, 0x1FD2);
    ThenAll(0x1FC0, 0x1FD2, 0x1FD4);
    ThenNone(0x1FC0, 0x1FD4, 0x1FD6);
    ThenAll(0x1FC0, 0x1FD6, 0x1FDC);
    ThenNone(0x1FC0, 0x1FDC, 0x1FE0);
  }

  lemma GreekUpsilonsCount()
    ensures Count(0x1FE0, 0x1FF0) == 10
  {
    hide Count, LatinBasic, LatinHooked, LatinExtendedB, LatinDigraphs, LatinTail, Greek, Cyrillic, Georgian, LatinAdditional, GreekBreathings, GreekIotas, GreekAlphas, GreekEtas, GreekOmegas, Symbols, LatinExtendedC, LatinExtendedD, LatinExtendedDTail, Ligatures, Supplementary;
    CountEmpty(0x1FE0);
    ThenNone(0x1FE0, 0x1FE0, 0x1FE2);
    ThenAll(0x1FE0, 0x1FE2, 0x1FE5);
    ThenNone(0x1FE0, 0x1FE5, 0x1FE6);
    ThenAll(0x1FE0, 0x1FE6, 0x1FED);
    ThenNone(0x1FE0, 0x1FED, 0x1FF0);
  }

  lemma GreekOmegasCount()
    ensures Count(0x1FF0, 0x2000) == 10
  {
    hide Count, LatinBasic, LatinHooked, LatinExtendedB, LatinDigraphs, LatinTail, Greek, Cyrillic, Georgian, LatinAdditional, GreekBreathings, GreekIotas, GreekAlphas, GreekEtas, GreekUpsilons, Symbols, LatinExtendedC, LatinExtendedD, LatinExtendedDTail, Ligatures, Supplementary;
    CountEmpty(0x1FF0);
    ThenNone(0x1FF0, 0x1FF0, 0x1FF2);
    ThenAll(0x1FF0, 0x1FF2, 0x1FF5);
    ThenNone(0x1FF0, 0x1FF5, 0x1FF6);
    ThenAll(0x1FF0, 0x1FF6, 0x1FFD);
    ThenNone(0x1FF0, 0x1FFD, 0x2000);
  }

  lemma SymbolsCount1()
    ensures Count(0x2000, 0x2184) == 21
  {
    hide Count, LatinBasic, LatinHooked, LatinExtendedB, LatinDigraphs, LatinTail, Greek, Cyrillic, Georgian, LatinAdditional, GreekBreathings, GreekIotas, GreekAlphas, GreekEtas, GreekUpsilons, GreekOmegas, LatinExtendedC, LatinExtendedD, LatinExtendedDTail, Ligatures, Supplementary;
    CountEmpty(0x2000);
    ThenNone(0x2000, 0x2000, 0x2126);
    ThenAll(0x2000, 0x2126, 0x2127);
    ThenNone(0x2000, 0x2127, 0x212A);
    ThenAll(0x2000, 0x212A, 0x212C);
    ThenNone(0x2000, 0x212C, 0x2132);
    ThenAll(0x2000, 0x2132, 0x2133);
    ThenNone(0x2000, 0x2133, 0x2160);
    ThenAll(0x2000, 0x2160, 0x2170);
    ThenNone(0x2000, 0x2170, 0x2183);
    ThenAll(0x2000, 0x2183, 0x2184);
  }

  lemma SymbolsCount2()
    ensures Count(0x2184, 0x2C60) == 74
  {
    hide Count, LatinBasic, LatinHooked, LatinExtendedB, LatinDigraphs, LatinTail, Greek, Cyrillic, Georgian, LatinAdditional, GreekBreathings, GreekIotas, GreekAlphas, GreekEtas, GreekUpsilons, GreekOmegas, LatinExtendedC, LatinExtendedD, LatinExtendedDTail, Ligatures, Supplementary;
    CountEmpty(0x2184);
    ThenNone(0x2184, 0x2184, 0x24B6);
    ThenAll(0x2184, 0x24B6, 0x24D0);
    ThenNone(0x2184, 0x24D0, 0x2C00);
    ThenAll(0x2184, 0x2C00, 0x2C30);
    ThenNone(0x2184, 0x2C30, 0x2C60);
  }

  lemma LatinExtendedCCount1()
    ensures Count(0x2C60, 0x2C76) == 13
  {
    hide Count, LatinBasic, LatinHooked, LatinExtendedB, LatinDigraphs, LatinTail, Greek, Cyrillic, Georgian, LatinAdditional, GreekBreathings, GreekIotas, GreekAlphas, GreekEtas, GreekUpsilons, GreekOmegas, Symbols, LatinExtendedD, LatinExtendedDTail, Ligatures, Supplementary;
    CountEmpty(0x2C60);
    ThenAll(0x2C60, 0x2C60, 0x2C61);
    ThenNone(0x2C60, 0x2C61, 0x2C62);
    ThenAll(0x2C60, 0x2C62, 0x2C65);
    ThenNone(0x2C60, 0x2C65, 0x2C67);
    ThenAlternating(0x2C60, 0x2C67, 0x2C6D);
    ThenAll(0x2C60, 0x2C6D, 0x2C71);
    ThenNone(0x2C60, 0x2C71, 0x2C72);
    ThenAll(0x2C60, 0x2C72, 0x2C73);
    ThenNone(0x2C60, 0x2C73, 0x2C75);
    ThenAll(0x2C60, 0x2C75, 0x2C76);
  }

  lemma LatinExtendedCCount2()
    ensures Count(0x2C76, 0xA640) == 55
  {
    hide Count, LatinBasic, LatinHooked, LatinExtendedB, LatinDigraphs, LatinTail, Greek, Cyrillic, Georgian, LatinAdditional, GreekBreathings, GreekIotas, GreekAlphas, GreekEtas, GreekUpsilons, GreekOmegas, Symbols, LatinExtendedD, LatinExtendedDTail, Ligatures, Supplementary;
    CountEmpty(0x2C76);
    ThenNone(0x2C76, 0x2C76, 0x2C7E);
    ThenAll(0x2C76, 0x2C7E, 0x2C81);
    ThenNone(0x2C76, 0x2C81, 0x2C82);
    ThenAlternating(0x2C76, 0x2C82, 0x2CE4);
    ThenNone(0x2C76, 0x2CE4, 0x2CEB);
    ThenAlternating(0x2C76, 0x2CEB, 0x2CEF);
    ThenNone(0x2C76, 0x2CEF, 0x2CF2);
    ThenAll(0x2C76, 0x2CF2, 0x2CF3);
    ThenNone(0x2C76, 0x2CF3, 0xA640);
  }

  lemma LatinExtendedDCount1()
    ensures Count(0xA640, 0xA77F) == 79
  {
    hide Count, LatinBasic, LatinHooked, LatinExtendedB, LatinDigraphs, LatinTail, Greek, Cyrillic, Georgian, LatinAdditional, GreekBreathings, GreekIotas, GreekAlphas, GreekEtas, GreekUpsilons, GreekOmegas, Symbols, LatinExtendedC, LatinExtendedDTail, Ligatures, Supplementary;
    CountEmpty(0xA640);
    ThenAlternating(0xA640, 0xA640, 0xA66E);
    ThenNone(0xA640, 0xA66E, 0xA680);
    ThenAlternating(0xA640, 0xA680, 0xA69C);
    ThenNone(0xA640, 0xA69C, 0xA722);
    ThenAlternating(0xA640, 0xA722, 0xA730);
    ThenNone(0xA640, 0xA730, 0xA732);
    ThenAlternating(0xA640, 0xA732, 0xA770);
    ThenNone(0xA640, 0xA770, 0xA779);
    ThenAlternating(0xA640, 0xA779, 0xA77D);
    ThenAll(0xA640, 0xA77D, 0xA77F);
  }

  lemma LatinExtendedDCount2()
    ensures Count(0xA77F, 0xA7AA) == 18
  {
    hide Count, LatinBasic, LatinHooked, LatinExtendedB, LatinDigraphs, LatinTail, Greek, Cyrillic, Georgian, LatinAdditional, GreekBreathings, GreekIotas, GreekAlphas, GreekEtas, GreekUpsilons, GreekOmegas, Symbols, LatinExtendedC, LatinExtendedDTail, Ligatures, Supplementary;
    CountEmpty(0xA77F);
    ThenNone(0xA77F, 0xA77F, 0xA780);
    ThenAlternating(0xA77F, 0xA780, 0xA788);
    ThenNone(0xA77F, 0xA788, 0xA78B);
    ThenAlternating(0xA77F, 0xA78B, 0xA78F);
    ThenNone(0xA77F, 0xA78F, 0xA790);
    ThenAlternating(0xA77F, 0xA790, 0xA794);
    ThenNone(0xA77F, 0xA794, 0xA796);
    ThenAlternating(0xA77F, 0xA796, 0xA7AA);
  }

  lemma LatinExtendedDTailCount1()
    ensures Count(0xA7AA, 0xA7D1) == 23
  {
    hide Count, LatinBasic, LatinHooked, LatinExtendedB, LatinDigraphs, LatinTail, Greek, Cyrillic, Georgian, LatinAdditional, GreekBreathings, GreekIotas, GreekAlphas, GreekEtas, GreekUpsilons, GreekOmegas, Symbols, LatinExtendedC, LatinExtendedD, Ligatures, Supplementary;
    CountEmpty(0xA7AA);
    ThenAll(0xA7AA, 0xA7AA, 0xA7AF);
    ThenNone(0xA7AA, 0xA7AF, 0xA7B0);
    ThenAll(0xA7AA, 0xA7B0, 0xA7B5);
    ThenNone(0xA7AA, 0xA7B5, 0xA7B6);
    ThenAlternating(0xA7AA, 0xA7B6, 0xA7C4);
    ThenAll(0xA7AA, 0xA7C4, 0xA7C8);
    ThenNone(0xA7AA, 0xA7C8, 0xA7C9);
    ThenAll(0xA7AA, 0xA7C9, 0xA7CA);
    ThenNone(0xA7AA, 0xA7CA, 0xA7D0);
    ThenAll(0xA7AA, 0xA7D0, 0xA7D1);
  }

  lemma LatinExtendedDTailCount2()
    ensures Count(0xA7D1, 0xAB70) == 3
  {
    hide Count, LatinBasic, LatinHooked, LatinExtendedB, LatinDigraphs, LatinTail, Greek, Cyrillic, Georgian, LatinAdditional, GreekBreathings, GreekIotas, GreekAlphas, GreekEtas, GreekUpsilons, GreekOmegas, Symbols, LatinExtendedC, LatinExtendedD, Ligatures, Supplementary;
    CountEmpty(0xA7D1);
    ThenNone(0xA7D1, 0xA7D1, 0xA7D6);
    ThenAlternating(0xA7D1, 0xA7D6, 0xA7DA);
    ThenNone(0xA7D1, 0xA7DA, 0xA7F5);
    ThenAll(0xA7D1, 0xA7F5, 0xA7F6);
    ThenNone(0xA7D1, 0xA7F6, 0xAB70);
  }

  lemma LigaturesCount()
    ensures Count(0xAB70, 0xFF00) == 92
  {
    hide Count, LatinBasic, LatinHooked, LatinExtendedB, LatinDigraphs, LatinTail, Greek, Cyrillic, Georgian, LatinAdditional, GreekBreathings, GreekIotas, GreekAlphas, GreekEtas, GreekUpsilons, GreekOmegas, Symbols, LatinExtendedC, LatinExtendedD, LatinExtendedDTail, Supplementary;
    CountEmpty(0xAB70);
    ThenAll(0xAB70, 0xAB70, 0xABC0);
    ThenNone(0xAB70, 0xABC0, 0xFB00);
    ThenAll(0xAB70, 0xFB00, 0xFB07);
    ThenNone(0xAB70, 0xFB07, 0xFB13);
    ThenAll(0xAB70, 0xFB13, 0xFB18);
    ThenNone(0xAB70, 0xFB18, 0xFF00);
  }

  lemma SupplementaryCount1()
    ensures Count(0xFF00, 0x1058B) == 128
  {
    hide Count, LatinBasic, LatinHooked, LatinExtendedB, LatinDigraphs, LatinTail, Greek, Cyrillic, Georgian, LatinAdditional, GreekBreathings, GreekIotas, GreekAlphas, GreekEtas, GreekUpsilons, GreekOmegas, Symbols, LatinExtendedC, LatinExtendedD, LatinExtendedDTail, Ligatures;
    CountEmpty(0xFF00);
    ThenNone(0xFF00, 0xFF00, 0xFF21);
    ThenAll(0xFF00, 0xFF21, 0xFF3B);
    ThenNone(0xFF00, 0xFF3B, 0x10400);
    ThenAll(0xFF00, 0x10400, 0x10428);
    ThenNone(0xFF00, 0x10428, 0x104B0);
    ThenAll(0xFF00, 0x104B0, 0x104D4);
    ThenNone(0xFF00, 0x104D4, 0x10570);
    ThenAll(0xFF00, 0x10570, 0x1057B);
    ThenNone(0xFF00, 0x1057B, 0x1057C);
    ThenAll(0xFF00, 0x1057C, 0x1058B);
  }

  lemma SupplementaryCount2()
    ensures Count(0x1058B, 0x16E60) == 124
  {
    hide Count, LatinBasic, LatinHooked, LatinExtendedB, LatinDigraphs, LatinTail, Greek, Cyrillic, Georgian, LatinAdditional, GreekBreathings, GreekIotas, GreekAlphas, GreekEtas, GreekUpsilons, GreekOmegas, Symbols, LatinExtendedC, LatinExtendedD, LatinExtendedDTail, Ligatures;
    CountEmpty(0x1058B);
    ThenNone(0x1058B, 0x1058B, 0x1058C);
    ThenAll(0x1058B, 0x1058C, 0x10593);
    ThenNone(0x1058B, 0x10593, 0x10594);
    ThenAll(0x1058B, 0x10594, 0x10596);
    ThenNone(0x1058B, 0x10596, 0x10C80);
    ThenAll(0x1058B, 0x10C80, 0x10CB3);
    ThenNone(0x1058B, 0x10CB3, 0x118A0);
    ThenAll(0x1058B, 0x118A0, 0x118C0);
    ThenNone(0x1058B, 0x118C0, 0x16E40);
    ThenAll(0x1058B, 0x16E40, 0x16E60);
  }

  lemma SupplementaryCount3()
    ensures Count(0x16E60, 0x110000) == 34
  {
    hide Count, LatinBasic, LatinHooked, LatinExtendedB, LatinDigraphs, LatinTail, Greek, Cyrillic, Georgian, LatinAdditional, GreekBreathings, GreekIotas, GreekAlphas, GreekEtas, GreekUpsilons, GreekOmegas, Symbols, LatinExtendedC, LatinExtendedD, LatinExtendedDTail, Ligatures;
    CountEmpty(0x16E60);
    ThenNone(0x16E60, 0x16E60, 0x1E900);
    ThenAll(0x16E60, 0x1E900, 0x1E922);
    ThenNone(0x16E60, 0x1E922, 0x110000);
  }

  /** The table lists exactly 1530 code points. */
  lemma ListedCount()
    ensures Count(0, 0x110000) == 1530
  {
    hide Count;
    LatinBasicCount1();
    LatinBasicCount2();
    LatinHookedCount1();
    LatinHookedCount2();
    LatinExtendedBCount1();
    LatinExtendedBCount2();
    LatinDigraphsCount1();
    LatinDigraphsCount2();
    LatinTailCount1();
    LatinTailCount2();
    GreekCount1();
    GreekCount2();
    GreekCount3();
    GreekCount4();
    CyrillicCount1();
    CyrillicCount2();
    CyrillicCount3();
    GeorgianCount();
    LatinAdditionalCount();
    GreekBreathingsCount1();
    GreekBreathingsCount2();
    GreekIotasCount();
    GreekAlphasCount();
    GreekEtasCount();
    GreekUpsilonsCount();
    GreekOmegasCount();
    SymbolsCount1();
    SymbolsCount2();
    LatinExtendedCCount1();
    LatinExtendedCCount2();
    LatinExtendedDCount1();
    LatinExtendedDCount2();
    LatinExtendedDTailCount1();
    LatinExtendedDTailCount2();
    LigaturesCount();
    SupplementaryCount1();
    SupplementaryCount2();
    SupplementaryCount3();
    CountSplit(0, 0x138, 0x180);
    CountSplit(0, 0x180, 0x192);
    CountSplit(0, 0x192, 0x1A0);
    CountSplit(0, 0x1A0, 0x1B4);
    CountSplit(0, 0x1B4, 0x1C4);
    CountSplit(0, 0x1C4, 0x1F3);
    CountSplit(0, 0x1F3, 0x220);
    CountSplit(0, 0x220, 0x248);
    CountSplit(0, 0x248, 0x250);
    CountSplit(0, 0x250, 0x387);
    CountSplit(0, 0x387, 0x3B1);
    CountSplit(0, 0x3B1, 0x3F4);
    CountSplit(0, 0x3F4, 0x400);
    CountSplit(0, 0x400, 0x530);
    CountSplit(0, 0x530, 0x10CE);
    CountSplit(0, 0x10CE, 0x1C80);
    CountSplit(0, 0x1C80, 0x1E00);
    CountSplit(0, 0x1E00, 0x1F00);
    CountSplit(0, 0x1F00, 0x1F4E);
    CountSplit(0, 0x1F4E, 0x1F80);
    CountSplit(0, 0x1F80, 0x1FB0);
    CountSplit(0, 0x1FB0, 0x1FC0);
    CountSplit(0, 0x1FC0, 0x1FE0);
    CountSplit(0, 0x1FE0, 0x1FF0);
    CountSplit(0, 0x1FF0, 0x2000);
    CountSplit(0, 0x2000, 0x2184);
    CountSplit(0, 0x2184, 0x2C60);
    CountSplit(0, 0x2C60, 0x2C76);
    CountSplit(0, 0x2C76, 0xA640);
    CountSplit(0, 0xA640, 0xA77F);
    CountSplit(0, 0xA77F, 0xA7AA);
    CountSplit(0, 0xA7AA, 0xA7D1);
    CountSplit(0, 0xA7D1, 0xAB70);
    CountSplit(0, 0xAB70, 0xFF00);
    CountSplit(0, 0xFF00, 0x1058B);
    CountSplit(0, 0x1058B, 0x16E60);
    CountSplit(0, 0x16E60, 0x110000);
  }

  lemma ListedIff(c: char)
    ensures FoldChar(c) != [c] <==> !Unmapped(c as int)
  {
    ReplacementsAreSettled(c as int);
    var folded := FoldPoint(c as int);
    hide FoldPoint;
    assert |FoldChar(c)| == |folded|;
    if |folded| == 1 {
      assert FoldChar(c)[0] as int == folded[0];
    }
  }

  lemma NoScalarNoEntry(p: int)
    requires 0 <= p < 0x110000 && !Scalar(p)
    ensures Unmapped(p)
  {
  }

  lemma WithoutLast(table: seq<Entry>, p: nat)
    requires p < 0x110000 && TableBelow(table, p + 1) && table != [] && table[|table| - 1].point as int == p
    ensures TableBelow(table[..|table| - 1], p) && !Unmapped(p)
  {
    hide FoldChar, Unmapped;
    ListedIff(table[|table| - 1].point);
    var front := table[..|table| - 1];
    forall c: char | (c as int) < p && FoldChar(c) != [c]
      ensures exists i :: 0 <= i < |front| && front[i].point == c
    {
      var i :| 0 <= i < |table| && table[i].point == c;
      assert front[i].point == c;
    }
  }

  lemma NothingAt(table: seq<Entry>, p: nat)
    requires p < 0x110000 && TableBelow(table, p + 1) && (table == [] || table[|table| - 1].point as int != p)
    ensures TableBelow(table, p) && Unmapped(p)
  {
    hide FoldChar, Unmapped;
    assert forall i | 0 <= i < |table| :: table[i].point as int != p;
    if Scalar(p) {
      ListedIff(p as char);
    } else {
      NoScalarNoEntry(p);
    }
  }

  lemma SomePoint(table: seq<Entry>)
    ensures table != [] ==> exists i :: 0 <= i < |table| && table[i].point as int >= 0
  {
    if table != [] {
      assert table[0].point as int >= 0;
    }
  }

  /** A sorted table of the foldings below a limit has one row for each listed code point below it. */
  lemma {:induction false} TableSize(table: seq<Entry>, limit: nat)
    requires limit <= 0x110000 && TableBelow(table, limit)
    ensures |table| == Count(0, limit)
    decreases limit
  {
    if limit == 0 {
      SomePoint(table);
    } else {
      hide TableBelow, Unmapped;
      if table != [] && table[|table| - 1].point as int == limit - 1 {
        WithoutLast(table, limit - 1);
        TableSize(table[..|table| - 1], limit - 1);
      } else {
        NothingAt(table, limit - 1);
        TableSize(table, limit - 1);
      }
    }
  }

  /** The table that the search runs on has exactly 1530 rows. */
  lemma WholeTableSize(table: seq<Entry>)
    requires WholeTable(table)
    ensures |table| == 1530
  {
    ListedCount();
    TableSize(table, 0x110000);
  }
}
