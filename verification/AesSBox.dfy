/** The S-box written out as FIPS 197 prints it. */
module AesSBox {
  import opened GaloisField
  import opened AesTables
  import opened G = Generator

  // ------------------------------------------------------------------ the powers of 3

  lemma Powers0()
    ensures Pow(1) == 0x03 && Pow(2) == 0x05 && Pow(3) == 0x0f && Pow(4) == 0x11 && Pow(5) == 0x33 && Pow(6) == 0x55
    ensures Pow(7) == 0xff && Pow(8) == 0x1a && Pow(9) == 0x2e && Pow(10) == 0x72 && Pow(11) == 0x96 && Pow(12) == 0xa1
    ensures Pow(13) == 0xf8 && Pow(14) == 0x13 && Pow(15) == 0x35 && Pow(16) == 0x5f
  {
    PowZero();
    assert Pow(1) == 0x03; assert Pow(3) == 0x0f; assert Pow(5) == 0x33; assert Pow(7) == 0xff;
    assert Pow(9) == 0x2e; assert Pow(11) == 0x96; assert Pow(13) == 0xf8; assert Pow(15) == 0x35;
  }

  lemma Powers1()
    ensures Pow(17) == 0xe1 && Pow(18) == 0x38 && Pow(19) == 0x48 && Pow(20) == 0xd8 && Pow(21) == 0x73 && Pow(22) == 0x95
    ensures Pow(23) == 0xa4 && Pow(24) == 0xf7 && Pow(25) == 0x02 && Pow(26) == 0x06 && Pow(27) == 0x0a && Pow(28) == 0x1e
    ensures Pow(29) == 0x22 && Pow(30) == 0x66 && Pow(31) == 0xaa && Pow(32) == 0xe5
  {
    Powers0();
    assert Pow(17) == 0xe1; assert Pow(19) == 0x48; assert Pow(21) == 0x73; assert Pow(23) == 0xa4;
    assert Pow(25) == 0x02; assert Pow(27) == 0x0a; assert Pow(29) == 0x22; assert Pow(31) == 0xaa;
  }

  lemma Powers2()
    ensures Pow(33) == 0x34 && Pow(34) == 0x5c && Pow(35) == 0xe4 && Pow(36) == 0x37 && Pow(37) == 0x59 && Pow(38) == 0xeb
    ensures Pow(39) == 0x26 && Pow(40) == 0x6a && Pow(41) == 0xbe && Pow(42) == 0xd9 && Pow(43) == 0x70 && Pow(44) == 0x90
    ensures Pow(45) == 0xab && Pow(46) == 0xe6 && Pow(47) == 0x31 && Pow(48) == 0x53
  {
    Powers1();
    assert Pow(33) == 0x34; assert Pow(35) == 0xe4; assert Pow(37) == 0x59; assert Pow(39) == 0x26;
    assert Pow(41) == 0xbe; assert Pow(43) == 0x70; assert Pow(45) == 0xab; assert Pow(47) == 0x31;
  }

  lemma Powers3()
    ensures Pow(49) == 0xf5 && Pow(50) == 0x04 && Pow(51) == 0x0c && Pow(52) == 0x14 && Pow(53) == 0x3c && Pow(54) == 0x44
    ensures Pow(55) == 0xcc && Pow(56) == 0x4f && Pow(57) == 0xd1 && Pow(58) == 0x68 && Pow(59) == 0xb8 && Pow(60) == 0xd3
    ensures Pow(61) == 0x6e && Pow(62) == 0xb2 && Pow(63) == 0xcd && Pow(64) == 0x4c
  {
    Powers2();
    assert Pow(49) == 0xf5; assert Pow(51) == 0x0c; assert Pow(53) == 0x3c; assert Pow(55) == 0xcc;
    assert Pow(57) == 0xd1; assert Pow(59) == 0xb8; assert Pow(61) == 0x6e; assert Pow(63) == 0xcd;
  }

  lemma Powers4()
    ensures Pow(65) == 0xd4 && Pow(66) == 0x67 && Pow(67) == 0xa9 && Pow(68) == 0xe0 && Pow(69) == 0x3b && Pow(70) == 0x4d
    ensures Pow(71) == 0xd7 && Pow(72) == 0x62 && Pow(73) == 0xa6 && Pow(74) == 0xf1 && Pow(75) == 0x08 && Pow(76) == 0x18
    ensures Pow(77) == 0x28 && Pow(78) == 0x78 && Pow(79) == 0x88 && Pow(80) == 0x83
  {
    Powers3();
    assert Pow(65) == 0xd4; assert Pow(67) == 0xa9; assert Pow(69) == 0x3b; assert Pow(71) == 0xd7;
    assert Pow(73) == 0xa6; assert Pow(75) == 0x08; assert Pow(77) == 0x28; assert Pow(79) == 0x88;
  }

  lemma Powers5()
    ensures Pow(81) == 0x9e && Pow(82) == 0xb9 && Pow(83) == 0xd0 && Pow(84) == 0x6b && Pow(85) == 0xbd && Pow(86) == 0xdc
    ensures Pow(87) == 0x7f && Pow(88) == 0x81 && Pow(89) == 0x98 && Pow(90) == 0xb3 && Pow(91) == 0xce && Pow(92) == 0x49
    ensures Pow(93) == 0xdb && Pow(94) == 0x76 && Pow(95) == 0x9a && Pow(96) == 0xb5
  {
    Powers4();
    assert Pow(81) == 0x9e; assert Pow(83) == 0xd0; assert Pow(85) == 0xbd; assert Pow(87) == 0x7f;
    assert Pow(89) == 0x98; assert Pow(91) == 0xce; assert Pow(93) == 0xdb; assert Pow(95) == 0x9a;
  }

  lemma Powers6()
    ensures Pow(97) == 0xc4 && Pow(98) == 0x57 && Pow(99) == 0xf9 && Pow(100) == 0x10 && Pow(101) == 0x30 && Pow(102) == 0x50
    ensures Pow(103) == 0xf0 && Pow(104) == 0x0b && Pow(105) == 0x1d && Pow(106) == 0x27 && Pow(107) == 0x69 && Pow(108) == 0xbb
    ensures Pow(109) == 0xd6 && Pow(110) == 0x61 && Pow(111) == 0xa3 && Pow(112) == 0xfe
  {
    Powers5();
    assert Pow(97) == 0xc4; assert Pow(99) == 0xf9; assert Pow(101) == 0x30; assert Pow(103) == 0xf0;
    assert Pow(105) == 0x1d; assert Pow(107) == 0x69; assert Pow(109) == 0xd6; assert Pow(111) == 0xa3;
  }

  lemma Powers7()
    ensures Pow(113) == 0x19 && Pow(114) == 0x2b && Pow(115) == 0x7d && Pow(116) == 0x87 && Pow(117) == 0x92 && Pow(118) == 0xad
    ensures Pow(119) == 0xec && Pow(120) == 0x2f && Pow(121) == 0x71 && Pow(122) == 0x93 && Pow(123) == 0xae && Pow(124) == 0xe9
    ensures Pow(125) == 0x20 && Pow(126) == 0x60 && Pow(127) == 0xa0 && Pow(128) == 0xfb
  {
    Powers6();
    assert Pow(113) == 0x19; assert Pow(115) == 0x7d; assert Pow(117) == 0x92; assert Pow(119) == 0xec;
    assert Pow(121) == 0x71; assert Pow(123) == 0xae; assert Pow(125) == 0x20; assert Pow(127) == 0xa0;
  }

  lemma Powers8()
    ensures Pow(129) == 0x16 && Pow(130) == 0x3a && Pow(131) == 0x4e && Pow(132) == 0xd2 && Pow(133) == 0x6d && Pow(134) == 0xb7
    ensures Pow(135) == 0xc2 && Pow(136) == 0x5d && Pow(137) == 0xe7 && Pow(138) == 0x32 && Pow(139) == 0x56 && Pow(140) == 0xfa
    ensures Pow(141) == 0x15 && Pow(142) == 0x3f && Pow(143) == 0x41 && Pow(144) == 0xc3
  {
    Powers7();
    assert Pow(129) == 0x16; assert Pow(131) == 0x4e; assert Pow(133) == 0x6d; assert Pow(135) == 0xc2;
    assert Pow(137) == 0xe7; assert Pow(139) == 0x56; assert Pow(141) == 0x15; assert Pow(143) == 0x41;
  }

  lemma Powers9()
    ensures Pow(145) == 0x5e && Pow(146) == 0xe2 && Pow(147) == 0x3d && Pow(148) == 0x47 && Pow(149) == 0xc9 && Pow(150) == 0x40
    ensures Pow(151) == 0xc0 && Pow(152) == 0x5b && Pow(153) == 0xed && Pow(154) == 0x2c && Pow(155) == 0x74 && Pow(156) == 0x9c
    ensures Pow(157) == 0xbf && Pow(158) == 0xda && Pow(159) == 0x75 && Pow(160) == 0x9f
  {
    Powers8();
    assert Pow(145) == 0x5e; assert Pow(147) == 0x3d; assert Pow(149) == 0xc9; assert Pow(151) == 0xc0;
    assert Pow(153) == 0xed; assert Pow(155) == 0x74; assert Pow(157) == 0xbf; assert Pow(159) == 0x75;
  }

  lemma PowersA()
    ensures Pow(161) == 0xba && Pow(162) == 0xd5 && Pow(163) == 0x64 && Pow(164) == 0xac && Pow(165) == 0xef && Pow(166) == 0x2a
    ensures Pow(167) == 0x7e && Pow(168) == 0x82 && Pow(169) == 0x9d && Pow(170) == 0xbc && Pow(171) == 0xdf && Pow(172) == 0x7a
    ensures Pow(173) == 0x8e && Pow(174) == 0x89 && Pow(175) == 0x80 && Pow(176) == 0x9b
  {
    Powers9();
    assert Pow(161) == 0xba; assert Pow(163) == 0x64; assert Pow(165) == 0xef; assert Pow(167) == 0x7e;
    assert Pow(169) == 0x9d; assert Pow(171) == 0xdf; assert Pow(173) == 0x8e; assert Pow(175) == 0x80;
  }

  lemma PowersB()
    ensures Pow(177) == 0xb6 && Pow(178) == 0xc1 && Pow(179) == 0x58 && Pow(180) == 0xe8 && Pow(181) == 0x23 && Pow(182) == 0x65
    ensures Pow(183) == 0xaf && Pow(184) == 0xea && Pow(185) == 0x25 && Pow(186) == 0x6f && Pow(187) == 0xb1 && Pow(188) == 0xc8
    ensures Pow(189) == 0x43 && Pow(190) == 0xc5 && Pow(191) == 0x54 && Pow(192) == 0xfc
  {
    PowersA();
    assert Pow(177) == 0xb6; assert Pow(179) == 0x58; assert Pow(181) == 0x23; assert Pow(183) == 0xaf;
    assert Pow(185) == 0x25; assert Pow(187) == 0xb1; assert Pow(189) == 0x43; assert Pow(191) == 0x54;
  }

  lemma PowersC()
    ensures Pow(193) == 0x1f && Pow(194) == 0x21 && Pow(195) == 0x63 && Pow(196) == 0xa5 && Pow(197) == 0xf4 && Pow(198) == 0x07
    ensures Pow(199) == 0x09 && Pow(200) == 0x1b && Pow(201) == 0x2d && Pow(202) == 0x77 && Pow(203) == 0x99 && Pow(204) == 0xb0
    ensures Pow(205) == 0xcb && Pow(206) == 0x46 && Pow(207) == 0xca && Pow(208) == 0x45
  {
    PowersB();
    assert Pow(193) == 0x1f; assert Pow(195) == 0x63; assert Pow(197) == 0xf4; assert Pow(199) == 0x09;
    assert Pow(201) == 0x2d; assert Pow(203) == 0x99; assert Pow(205) == 0xcb; assert Pow(207) == 0xca;
  }

  lemma PowersD()
    ensures Pow(209) == 0xcf && Pow(210) == 0x4a && Pow(211) == 0xde && Pow(212) == 0x79 && Pow(213) == 0x8b && Pow(214) == 0x86
    ensures Pow(215) == 0x91 && Pow(216) == 0xa8 && Pow(217) == 0xe3 && Pow(218) == 0x3e && Pow(219) == 0x42 && Pow(220) == 0xc6
    ensures Pow(221) == 0x51 && Pow(222) == 0xf3 && Pow(223) == 0x0e && Pow(224) == 0x12
  {
    PowersC();
    assert Pow(209) == 0xcf; assert Pow(211) == 0xde; assert Pow(213) == 0x8b; assert Pow(215) == 0x91;
    assert Pow(217) == 0xe3; assert Pow(219) == 0x42; assert Pow(221) == 0x51; assert Pow(223) == 0x0e;
  }

  lemma PowersE()
    ensures Pow(225) == 0x36 && Pow(226) == 0x5a && Pow(227) == 0xee && Pow(228) == 0x29 && Pow(229) == 0x7b && Pow(230) == 0x8d
    ensures Pow(231) == 0x8c && Pow(232) == 0x8f && Pow(233) == 0x8a && Pow(234) == 0x85 && Pow(235) == 0x94 && Pow(236) == 0xa7
    ensures Pow(237) == 0xf2 && Pow(238) == 0x0d && Pow(239) == 0x17 && Pow(240) == 0x39
  {
    PowersD();
    assert Pow(225) == 0x36; assert Pow(227) == 0xee; assert Pow(229) == 0x7b; assert Pow(231) == 0x8c;
    assert Pow(233) == 0x8a; assert Pow(235) == 0x94; assert Pow(237) == 0xf2; assert Pow(239) == 0x17;
  }

  lemma PowersF()
    ensures Pow(241) == 0x4b && Pow(242) == 0xdd && Pow(243) == 0x7c && Pow(244) == 0x84 && Pow(245) == 0x97 && Pow(246) == 0xa2
    ensures Pow(247) == 0xfd && Pow(248) == 0x1c && Pow(249) == 0x24 && Pow(250) == 0x6c && Pow(251) == 0xb4 && Pow(252) == 0xc7
    ensures Pow(253) == 0x52 && Pow(254) == 0xf6 && Pow(255) == 0x01 && Pow(256) == 0x03
  {
    PowersE();
    assert Pow(241) == 0x4b; assert Pow(243) == 0x7c; assert Pow(245) == 0x97; assert Pow(247) == 0xfd;
    assert Pow(249) == 0x24; assert Pow(251) == 0xb4; assert Pow(253) == 0x52; assert Pow(255) == 0x01;
  }

  // ------------------------------------------------------------------ substitutes

  /** A substitute: the affine map of the inverse, which is the opposite power. */
  lemma Substitute(i: nat, x: bv8, y: bv8)
    requires i < 255 && Pow(i) == x && Pow((255 - i) % 255) == y
    ensures SBox(x) == Affine(y)
  {
    hide Affine, Mul, Pow;
    PowNonZero(i);
    PowInverse(i);
    InverseUnique(x, y, Inverse(x));
  }

  lemma SubstituteZero()
    ensures SBox(0x00) == 0x63
  {
    hide Inverse;
  }

  lemma Row0()
    ensures SBox(0x00) == 0x63 && SBox(0x01) == 0x7c && SBox(0x02) == 0x77 && SBox(0x03) == 0x7b && SBox(0x04) == 0xf2 && SBox(0x05) == 0x6b
    ensures SBox(0x06) == 0x6f && SBox(0x07) == 0xc5 && SBox(0x08) == 0x30 && SBox(0x09) == 0x01 && SBox(0x0a) == 0x67 && SBox(0x0b) == 0x2b
    ensures SBox(0x0c) == 0xfe && SBox(0x0d) == 0xd7 && SBox(0x0e) == 0xab && SBox(0x0f) == 0x76
  {
    hide SBox, Pow;
    Powers0(); Powers1(); Powers3(); Powers4(); Powers6(); Powers9(); PowersB(); PowersC(); PowersD(); PowersE(); PowersF(); PowZero();
    SubstituteZero(); Substitute(0, 0x01, 0x01); Substitute(25, 0x02, 0x8d); Substitute(1, 0x03, 0xf6);
    Substitute(50, 0x04, 0xcb); Substitute(2, 0x05, 0x52); Substitute(26, 0x06, 0x7b); Substitute(198, 0x07, 0xd1);
    Substitute(75, 0x08, 0xe8); Substitute(199, 0x09, 0x4f); Substitute(27, 0x0a, 0x29); Substitute(104, 0x0b, 0xc0);
    Substitute(51, 0x0c, 0xb0); Substitute(238, 0x0d, 0xe1); Substitute(223, 0x0e, 0xe5); Substitute(3, 0x0f, 0xc7);
  }

  lemma Row1()
    ensures SBox(0x10) == 0xca && SBox(0x11) == 0x82 && SBox(0x12) == 0xc9 && SBox(0x13) == 0x7d && SBox(0x14) == 0xfa && SBox(0x15) == 0x59
    ensures SBox(0x16) == 0x47 && SBox(0x17) == 0xf0 && SBox(0x18) == 0xad && SBox(0x19) == 0xd4 && SBox(0x1a) == 0xa2 && SBox(0x1b) == 0xaf
    ensures SBox(0x1c) == 0x9c && SBox(0x1d) == 0xa4 && SBox(0x1e) == 0x72 && SBox(0x1f) == 0xc0
  {
    hide SBox, Pow;
    Powers0(); Powers1(); Powers3(); Powers4(); Powers6(); Powers7(); Powers8(); Powers9(); PowersB(); PowersC(); PowersD(); PowersE(); PowersF();
    Substitute(100, 0x10, 0x74); Substitute(4, 0x11, 0xb4); Substitute(224, 0x12, 0xaa); Substitute(14, 0x13, 0x4b);
    Substitute(52, 0x14, 0x99); Substitute(141, 0x15, 0x2b); Substitute(129, 0x16, 0x60); Substitute(239, 0x17, 0x5f);
    Substitute(76, 0x18, 0x58); Substitute(113, 0x19, 0x3f); Substitute(8, 0x1a, 0xfd); Substitute(200, 0x1b, 0xcc);
    Substitute(248, 0x1c, 0xff); Substitute(105, 0x1d, 0x40); Substitute(28, 0x1e, 0xee); Substitute(193, 0x1f, 0xb2);
  }

  lemma Row2()
    ensures SBox(0x20) == 0xb7 && SBox(0x21) == 0xfd && SBox(0x22) == 0x93 && SBox(0x23) == 0x26 && SBox(0x24) == 0x36 && SBox(0x25) == 0x3f
    ensures SBox(0x26) == 0xf7 && SBox(0x27) == 0xcc && SBox(0x28) == 0x34 && SBox(0x29) == 0xa5 && SBox(0x2a) == 0xe5 && SBox(0x2b) == 0xf1
    ensures SBox(0x2c) == 0x71 && SBox(0x2d) == 0xd8 && SBox(0x2e) == 0x31 && SBox(0x2f) == 0x15
  {
    hide SBox, Pow;
    Powers0(); Powers1(); Powers2(); Powers3(); Powers4(); Powers5(); Powers6(); Powers7(); Powers8(); Powers9(); PowersA(); PowersB(); PowersC(); PowersD(); PowersE(); PowersF();
    Substitute(125, 0x20, 0x3a); Substitute(194, 0x21, 0x6e); Substitute(29, 0x22, 0x5a); Substitute(181, 0x23, 0xf1);
    Substitute(249, 0x24, 0x55); Substitute(185, 0x25, 0x4d); Substitute(39, 0x26, 0xa8); Substitute(106, 0x27, 0xc9);
    Substitute(77, 0x28, 0xc1); Substitute(228, 0x29, 0x0a); Substitute(166, 0x2a, 0x98); Substitute(114, 0x2b, 0x15);
    Substitute(154, 0x2c, 0x30); Substitute(201, 0x2d, 0x44); Substitute(9, 0x2e, 0xa2); Substitute(120, 0x2f, 0xc2);
  }

  lemma Row3()
    ensures SBox(0x30) == 0x04 && SBox(0x31) == 0xc7 && SBox(0x32) == 0x23 && SBox(0x33) == 0xc3 && SBox(0x34) == 0x18 && SBox(0x35) == 0x96
    ensures SBox(0x36) == 0x05 && SBox(0x37) == 0x9a && SBox(0x38) == 0x07 && SBox(0x39) == 0x12 && SBox(0x3a) == 0x80 && SBox(0x3b) == 0xe2
    ensures SBox(0x3c) == 0xeb && SBox(0x3d) == 0x27 && SBox(0x3e) == 0xb2 && SBox(0x3f) == 0x75
  {
    hide SBox, Pow;
    Powers0(); Powers1(); Powers2(); Powers3(); Powers4(); Powers6(); Powers7(); Powers8(); Powers9(); PowersB(); PowersC(); PowersD(); PowersE(); PowersF();
    Substitute(101, 0x30, 0x2c); Substitute(47, 0x31, 0x45); Substitute(138, 0x32, 0x92); Substitute(5, 0x33, 0x6c);
    Substitute(33, 0x34, 0xf3); Substitute(15, 0x35, 0x39); Substitute(225, 0x36, 0x66); Substitute(36, 0x37, 0x42);
    Substitute(18, 0x38, 0xf2); Substitute(240, 0x39, 0x35); Substitute(130, 0x3a, 0x20); Substitute(69, 0x3b, 0x6f);
    Substitute(53, 0x3c, 0x77); Substitute(147, 0x3d, 0xbb); Substitute(218, 0x3e, 0x59); Substitute(142, 0x3f, 0x19);
  }

  lemma Row4()
    ensures SBox(0x40) == 0x09 && SBox(0x41) == 0x83 && SBox(0x42) == 0x2c && SBox(0x43) == 0x1a && SBox(0x44) == 0x1b && SBox(0x45) == 0x6e
    ensures SBox(0x46) == 0x5a && SBox(0x47) == 0xa0 && SBox(0x48) == 0x52 && SBox(0x49) == 0x3b && SBox(0x4a) == 0xd6 && SBox(0x4b) == 0xb3
    ensures SBox(0x4c) == 0x29 && SBox(0x4d) == 0xe3 && SBox(0x4e) == 0x2f && SBox(0x4f) == 0x84
  {
    hide SBox, Pow;
    Powers0(); Powers1(); Powers2(); Powers3(); Powers4(); Powers5(); Powers6(); Powers7(); Powers8(); Powers9(); PowersA(); PowersB(); PowersC(); PowersD(); PowersE(); PowersF();
    Substitute(150, 0x40, 0x1d); Substitute(143, 0x41, 0xfe); Substitute(219, 0x42, 0x37); Substitute(189, 0x43, 0x67);
    Substitute(54, 0x44, 0x2d); Substitute(208, 0x45, 0x31); Substitute(206, 0x46, 0xf5); Substitute(148, 0x47, 0x69);
    Substitute(19, 0x48, 0xa7); Substitute(92, 0x49, 0x64); Substitute(210, 0x4a, 0xab); Substitute(241, 0x4b, 0x13);
    Substitute(64, 0x4c, 0x54); Substitute(70, 0x4d, 0x25); Substitute(131, 0x4e, 0xe9); Substitute(56, 0x4f, 0x09);
  }

  lemma Row5()
    ensures SBox(0x50) == 0x53 && SBox(0x51) == 0xd1 && SBox(0x52) == 0x00 && SBox(0x53) == 0xed && SBox(0x54) == 0x20 && SBox(0x55) == 0xfc
    ensures SBox(0x56) == 0xb1 && SBox(0x57) == 0x5b && SBox(0x58) == 0x6a && SBox(0x59) == 0xcb && SBox(0x5a) == 0xbe && SBox(0x5b) == 0x39
    ensures SBox(0x5c) == 0x4a && SBox(0x5d) == 0x4c && SBox(0x5e) == 0x58 && SBox(0x5f) == 0xcf
  {
    hide SBox, Pow;
    Powers0(); Powers1(); Powers2(); Powers3(); Powers4(); Powers6(); Powers7(); Powers8(); Powers9(); PowersB(); PowersC(); PowersD(); PowersE(); PowersF();
    Substitute(102, 0x50, 0xed); Substitute(221, 0x51, 0x5c); Substitute(253, 0x52, 0x05); Substitute(48, 0x53, 0xca);
    Substitute(191, 0x54, 0x4c); Substitute(6, 0x55, 0x24); Substitute(139, 0x56, 0x87); Substitute(98, 0x57, 0xbf);
    Substitute(179, 0x58, 0x18); Substitute(37, 0x59, 0x3e); Substitute(226, 0x5a, 0x22); Substitute(152, 0x5b, 0xf0);
    Substitute(34, 0x5c, 0x51); Substitute(136, 0x5d, 0xec); Substitute(145, 0x5e, 0x61); Substitute(16, 0x5f, 0x17);
  }

  lemma Row6()
    ensures SBox(0x60) == 0xd0 && SBox(0x61) == 0xef && SBox(0x62) == 0xaa && SBox(0x63) == 0xfb && SBox(0x64) == 0x43 && SBox(0x65) == 0x4d
    ensures SBox(0x66) == 0x33 && SBox(0x67) == 0x85 && SBox(0x68) == 0x45 && SBox(0x69) == 0xf9 && SBox(0x6a) == 0x02 && SBox(0x6b) == 0x7f
    ensures SBox(0x6c) == 0x50 && SBox(0x6d) == 0x3c && SBox(0x6e) == 0x9f && SBox(0x6f) == 0xa8
  {
    hide SBox, Pow;
    Powers0(); Powers1(); Powers2(); Powers3(); Powers4(); Powers5(); Powers6(); Powers7(); Powers8(); Powers9(); PowersA(); PowersB(); PowersC(); PowersD(); PowersE(); PowersF();
    Substitute(126, 0x60, 0x16); Substitute(110, 0x61, 0x5e); Substitute(72, 0x62, 0xaf); Substitute(195, 0x63, 0xd3);
    Substitute(163, 0x64, 0x49); Substitute(182, 0x65, 0xa6); Substitute(30, 0x66, 0x36); Substitute(66, 0x67, 0x43);
    Substitute(58, 0x68, 0xf4); Substitute(107, 0x69, 0x47); Substitute(40, 0x6a, 0x91); Substitute(84, 0x6b, 0xdf);
    Substitute(250, 0x6c, 0x33); Substitute(133, 0x6d, 0x93); Substitute(61, 0x6e, 0x21); Substitute(186, 0x6f, 0x3b);
  }

  lemma Row7()
    ensures SBox(0x70) == 0x51 && SBox(0x71) == 0xa3 && SBox(0x72) == 0x40 && SBox(0x73) == 0x8f && SBox(0x74) == 0x92 && SBox(0x75) == 0x9d
    ensures SBox(0x76) == 0x38 && SBox(0x77) == 0xf5 && SBox(0x78) == 0xbc && SBox(0x79) == 0xb6 && SBox(0x7a) == 0xda && SBox(0x7b) == 0x21
    ensures SBox(0x7c) == 0x10 && SBox(0x7d) == 0xff && SBox(0x7e) == 0xf3 && SBox(0x7f) == 0xd2
  {
    hide SBox, Pow;
    Powers0(); Powers1(); Powers2(); Powers3(); Powers4(); Powers5(); Powers6(); Powers7(); Powers8(); Powers9(); PowersA(); PowersB(); PowersC(); PowersD(); PowersE(); PowersF();
    Substitute(43, 0x70, 0x79); Substitute(121, 0x71, 0xb7); Substitute(10, 0x72, 0x97); Substitute(21, 0x73, 0x85);
    Substitute(155, 0x74, 0x10); Substitute(159, 0x75, 0xb5); Substitute(94, 0x76, 0xba); Substitute(202, 0x77, 0x3c);
    Substitute(78, 0x78, 0xb6); Substitute(212, 0x79, 0x70); Substitute(172, 0x7a, 0xd0); Substitute(229, 0x7b, 0x06);
    Substitute(243, 0x7c, 0xa1); Substitute(115, 0x7d, 0xfa); Substitute(167, 0x7e, 0x81); Substitute(87, 0x7f, 0x82);
  }

  lemma Row8()
    ensures SBox(0x80) == 0xcd && SBox(0x81) == 0x0c && SBox(0x82) == 0x13 && SBox(0x83) == 0xec && SBox(0x84) == 0x5f && SBox(0x85) == 0x97
    ensures SBox(0x86) == 0x44 && SBox(0x87) == 0x17 && SBox(0x88) == 0xc4 && SBox(0x89) == 0xa7 && SBox(0x8a) == 0x7e && SBox(0x8b) == 0x3d
    ensures SBox(0x8c) == 0x64 && SBox(0x8d) == 0x5d && SBox(0x8e) == 0x19 && SBox(0x8f) == 0x73
  {
    hide SBox, Pow;
    Powers0(); Powers1(); Powers2(); Powers4(); Powers5(); Powers7(); Powers8(); PowersA(); PowersD(); PowersE(); PowersF();
    Substitute(175, 0x80, 0x83); Substitute(88, 0x81, 0x7e); Substitute(168, 0x82, 0x7f); Substitute(80, 0x83, 0x80);
    Substitute(244, 0x84, 0x96); Substitute(234, 0x85, 0x73); Substitute(214, 0x86, 0xbe); Substitute(116, 0x87, 0x56);
    Substitute(79, 0x88, 0x9b); Substitute(174, 0x89, 0x9e); Substitute(233, 0x8a, 0x95); Substitute(213, 0x8b, 0xd9);
    Substitute(231, 0x8c, 0xf7); Substitute(230, 0x8d, 0x02); Substitute(173, 0x8e, 0xb9); Substitute(232, 0x8f, 0xa4);
  }

  lemma Row9()
    ensures SBox(0x90) == 0x60 && SBox(0x91) == 0x81 && SBox(0x92) == 0x4f && SBox(0x93) == 0xdc && SBox(0x94) == 0x22 && SBox(0x95) == 0x2a
    ensures SBox(0x96) == 0x90 && SBox(0x97) == 0x88 && SBox(0x98) == 0x46 && SBox(0x99) == 0xee && SBox(0x9a) == 0xb8 && SBox(0x9b) == 0x14
    ensures SBox(0x9c) == 0xde && SBox(0x9d) == 0x5e && SBox(0x9e) == 0x0b && SBox(0x9f) == 0xdb
  {
    hide SBox, Pow;
    Powers0(); Powers1(); Powers2(); Powers3(); Powers4(); Powers5(); Powers6(); Powers7(); Powers8(); Powers9(); PowersA(); PowersC(); PowersD(); PowersE(); PowersF();
    Substitute(44, 0x90, 0xde); Substitute(215, 0x91, 0x6a); Substitute(117, 0x92, 0x32); Substitute(122, 0x93, 0x6d);
    Substitute(235, 0x94, 0xd8); Substitute(22, 0x95, 0x8a); Substitute(11, 0x96, 0x84); Substitute(245, 0x97, 0x72);
    Substitute(89, 0x98, 0x2a); Substitute(203, 0x99, 0x14); Substitute(95, 0x9a, 0x9f); Substitute(176, 0x9b, 0x88);
    Substitute(156, 0x9c, 0xf9); Substitute(169, 0x9d, 0xdc); Substitute(81, 0x9e, 0x89); Substitute(160, 0x9f, 0x9a);
  }

  lemma RowA()
    ensures SBox(0xa0) == 0xe0 && SBox(0xa1) == 0x32 && SBox(0xa2) == 0x3a && SBox(0xa3) == 0x0a && SBox(0xa4) == 0x49 && SBox(0xa5) == 0x06
    ensures SBox(0xa6) == 0x24 && SBox(0xa7) == 0x5c && SBox(0xa8) == 0xc2 && SBox(0xa9) == 0xd3 && SBox(0xaa) == 0xac && SBox(0xab) == 0x62
    ensures SBox(0xac) == 0x91 && SBox(0xad) == 0x95 && SBox(0xae) == 0xe4 && SBox(0xaf) == 0x79
  {
    hide SBox, Pow;
    Powers0(); Powers1(); Powers2(); Powers3(); Powers4(); Powers5(); Powers6(); Powers7(); Powers8(); PowersA(); PowersB(); PowersC(); PowersD(); PowersE(); PowersF();
    Substitute(127, 0xa0, 0xfb); Substitute(12, 0xa1, 0x7c); Substitute(246, 0xa2, 0x2e); Substitute(111, 0xa3, 0xc3);
    Substitute(23, 0xa4, 0x8f); Substitute(196, 0xa5, 0xb8); Substitute(73, 0xa6, 0x65); Substitute(236, 0xa7, 0x48);
    Substitute(216, 0xa8, 0x26); Substitute(67, 0xa9, 0xc8); Substitute(31, 0xaa, 0x12); Substitute(45, 0xab, 0x4a);
    Substitute(164, 0xac, 0xce); Substitute(118, 0xad, 0xe7); Substitute(123, 0xae, 0xd2); Substitute(183, 0xaf, 0x62);
  }

  lemma RowB()
    ensures SBox(0xb0) == 0xe7 && SBox(0xb1) == 0xc8 && SBox(0xb2) == 0x37 && SBox(0xb3) == 0x6d && SBox(0xb4) == 0x8d && SBox(0xb5) == 0xd5
    ensures SBox(0xb6) == 0x4e && SBox(0xb7) == 0xa9 && SBox(0xb8) == 0x6c && SBox(0xb9) == 0x56 && SBox(0xba) == 0xf4 && SBox(0xbb) == 0xea
    ensures SBox(0xbc) == 0x65 && SBox(0xbd) == 0x7a && SBox(0xbe) == 0xae && SBox(0xbf) == 0x08
  {
    hide SBox, Pow;
    Powers0(); Powers2(); Powers3(); Powers4(); Powers5(); Powers6(); Powers7(); Powers8(); Powers9(); PowersA(); PowersB(); PowersC(); PowersD(); PowersF();
    Substitute(204, 0xb0, 0x0c); Substitute(187, 0xb1, 0xe0); Substitute(62, 0xb2, 0x1f); Substitute(90, 0xb3, 0xef);
    Substitute(251, 0xb4, 0x11); Substitute(96, 0xb5, 0x75); Substitute(177, 0xb6, 0x78); Substitute(134, 0xb7, 0x71);
    Substitute(59, 0xb8, 0xa5); Substitute(82, 0xb9, 0x8e); Substitute(161, 0xba, 0x76); Substitute(108, 0xbb, 0x3d);
    Substitute(170, 0xbc, 0xbd); Substitute(85, 0xbd, 0xbc); Substitute(41, 0xbe, 0x86); Substitute(157, 0xbf, 0x57);
  }

  lemma RowC()
    ensures SBox(0xc0) == 0xba && SBox(0xc1) == 0x78 && SBox(0xc2) == 0x25 && SBox(0xc3) == 0x2e && SBox(0xc4) == 0x1c && SBox(0xc5) == 0xa6
    ensures SBox(0xc6) == 0xb4 && SBox(0xc7) == 0xc6 && SBox(0xc8) == 0xe8 && SBox(0xc9) == 0xdd && SBox(0xca) == 0x74 && SBox(0xcb) == 0x1f
    ensures SBox(0xcc) == 0x4b && SBox(0xcd) == 0xbd && SBox(0xce) == 0x8b && SBox(0xcf) == 0x8a
  {
    hide SBox, Pow;
    Powers0(); Powers2(); Powers3(); Powers4(); Powers5(); Powers6(); Powers7(); Powers8(); Powers9(); PowersA(); PowersB(); PowersC(); PowersD(); PowersF();
    Substitute(151, 0xc0, 0x0b); Substitute(178, 0xc1, 0x28); Substitute(135, 0xc2, 0x2f); Substitute(144, 0xc3, 0xa3);
    Substitute(97, 0xc4, 0xda); Substitute(190, 0xc5, 0xd4); Substitute(220, 0xc6, 0xe4); Substitute(252, 0xc7, 0x0f);
    Substitute(188, 0xc8, 0xa9); Substitute(149, 0xc9, 0x27); Substitute(207, 0xca, 0x53); Substitute(205, 0xcb, 0x04);
    Substitute(55, 0xcc, 0x1b); Substitute(63, 0xcd, 0xfc); Substitute(91, 0xce, 0xac); Substitute(209, 0xcf, 0xe6);
  }

  lemma RowD()
    ensures SBox(0xd0) == 0x70 && SBox(0xd1) == 0x3e && SBox(0xd2) == 0xb5 && SBox(0xd3) == 0x66 && SBox(0xd4) == 0x48 && SBox(0xd5) == 0x03
    ensures SBox(0xd6) == 0xf6 && SBox(0xd7) == 0x0e && SBox(0xd8) == 0x61 && SBox(0xd9) == 0x35 && SBox(0xda) == 0x57 && SBox(0xdb) == 0xb9
    ensures SBox(0xdc) == 0x86 && SBox(0xdd) == 0xc1 && SBox(0xde) == 0x1d && SBox(0xdf) == 0x9e
  {
    hide SBox, Pow;
    Powers0(); Powers1(); Powers2(); Powers3(); Powers4(); Powers5(); Powers6(); Powers7(); Powers8(); Powers9(); PowersA(); PowersB(); PowersC(); PowersD(); PowersE(); PowersF();
    Substitute(83, 0xd0, 0x7a); Substitute(57, 0xd1, 0x07); Substitute(132, 0xd2, 0xae); Substitute(60, 0xd3, 0x63);
    Substitute(65, 0xd4, 0xc5); Substitute(162, 0xd5, 0xdb); Substitute(109, 0xd6, 0xe2); Substitute(71, 0xd7, 0xea);
    Substitute(20, 0xd8, 0x94); Substitute(42, 0xd9, 0x8b); Substitute(158, 0xda, 0xc4); Substitute(93, 0xdb, 0xd5);
    Substitute(86, 0xdc, 0x9d); Substitute(242, 0xdd, 0xf8); Substitute(211, 0xde, 0x90); Substitute(171, 0xdf, 0x6b);
  }

  lemma RowE()
    ensures SBox(0xe0) == 0xe1 && SBox(0xe1) == 0xf8 && SBox(0xe2) == 0x98 && SBox(0xe3) == 0x11 && SBox(0xe4) == 0x69 && SBox(0xe5) == 0xd9
    ensures SBox(0xe6) == 0x8e && SBox(0xe7) == 0x94 && SBox(0xe8) == 0x9b && SBox(0xe9) == 0x1e && SBox(0xea) == 0x87 && SBox(0xeb) == 0xe9
    ensures SBox(0xec) == 0xce && SBox(0xed) == 0x55 && SBox(0xee) == 0x28 && SBox(0xef) == 0xdf
  {
    hide SBox, Pow;
    Powers1(); Powers2(); Powers4(); Powers5(); Powers6(); Powers7(); Powers8(); Powers9(); PowersA(); PowersB(); PowersD(); PowersE();
    Substitute(68, 0xe0, 0xb1); Substitute(17, 0xe1, 0x0d); Substitute(146, 0xe2, 0xd6); Substitute(217, 0xe3, 0xeb);
    Substitute(35, 0xe4, 0xc6); Substitute(32, 0xe5, 0x0e); Substitute(46, 0xe6, 0xcf); Substitute(137, 0xe7, 0xad);
    Substitute(180, 0xe8, 0x08); Substitute(124, 0xe9, 0x4e); Substitute(184, 0xea, 0xd7); Substitute(38, 0xeb, 0xe3);
    Substitute(119, 0xec, 0x5d); Substitute(153, 0xed, 0x50); Substitute(227, 0xee, 0x1e); Substitute(165, 0xef, 0xb3);
  }

  lemma RowF()
    ensures SBox(0xf0) == 0x8c && SBox(0xf1) == 0xa1 && SBox(0xf2) == 0x89 && SBox(0xf3) == 0x0d && SBox(0xf4) == 0xbf && SBox(0xf5) == 0xe6
    ensures SBox(0xf6) == 0x42 && SBox(0xf7) == 0x68 && SBox(0xf8) == 0x41 && SBox(0xf9) == 0x99 && SBox(0xfa) == 0x2d && SBox(0xfb) == 0x0f
    ensures SBox(0xfc) == 0xb0 && SBox(0xfd) == 0x54 && SBox(0xfe) == 0xbb && SBox(0xff) == 0x16
  {
    hide SBox, Pow;
    Powers0(); Powers1(); Powers2(); Powers3(); Powers4(); Powers6(); Powers7(); Powers8(); Powers9(); PowersB(); PowersC(); PowersD(); PowersE(); PowersF();
    Substitute(103, 0xf0, 0x5b); Substitute(74, 0xf1, 0x23); Substitute(237, 0xf2, 0x38); Substitute(222, 0xf3, 0x34);
    Substitute(197, 0xf4, 0x68); Substitute(49, 0xf5, 0x46); Substitute(254, 0xf6, 0x03); Substitute(24, 0xf7, 0x8c);
    Substitute(13, 0xf8, 0xdd); Substitute(99, 0xf9, 0x9c); Substitute(140, 0xfa, 0x7d); Substitute(128, 0xfb, 0xa0);
    Substitute(192, 0xfc, 0xcd); Substitute(247, 0xfd, 0x1a); Substitute(112, 0xfe, 0x41); Substitute(7, 0xff, 0x1c);
  }
}
