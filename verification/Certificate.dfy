/** A prime on which the trial division overflows: 2^64 - 2^32 + 1. */
module Certificate {
  import opened Base
  import opened Primes

  const P: int := 0xffff_ffff_0000_0001

  // ---------- congruences ----------

  ghost predicate Congruent(a: int, b: int, n: int)
    requires n > 0
  {
    Divides(n, a - b)
  }

  // The quotient makes divisibility usable.
  lemma Quotient(a: int, b: int, n: int) returns (q: int)
    requires n > 0 && Congruent(a, b, n)
    ensures a == b + q * n
  {
    q := (a - b) / n;
    assert a - b == q * n;
  }

  lemma FromQuotient(a: int, b: int, n: int, q: int)
    requires n > 0 && a == b + q * n
    ensures Congruent(a, b, n)
  {
    ProductDivides(q, n);
  }

  lemma CongruentProducts(a: int, b: int, c: int, d: int, n: int)
    requires n > 0 && Congruent(a, b, n) && Congruent(c, d, n)
    ensures Congruent(a * c, b * d, n)
  {
    var q := Quotient(a, b, n);
    var r := Quotient(c, d, n);
    assert a * c == b * d + (b * r + d * q + q * r * n) * n;
    FromQuotient(a * c, b * d, n, b * r + d * q + q * r * n);
  }

  lemma CongruentTrans(a: int, b: int, c: int, n: int)
    requires n > 0 && Congruent(a, b, n) && Congruent(b, c, n)
    ensures Congruent(a, c, n) && Congruent(b, a, n)
  {
    var q := Quotient(a, b, n);
    var r := Quotient(b, c, n);
    assert a == c + (q + r) * n && b == a + (-q) * n;
    FromQuotient(a, c, n, q + r);
    FromQuotient(b, a, n, -q);
  }

  // ---------- powers ----------

  function Power(b: int, e: nat): int { if e == 0 then 1 else b * Power(b, e - 1) }

  lemma {:induction false} PowerAdds(b: int, e: nat, f: nat)
    ensures Power(b, e + f) == Power(b, e) * Power(b, f)
  {
    if e > 0 {
      PowerAdds(b, e - 1, f);
      assert b * (Power(b, e - 1) * Power(b, f)) == (b * Power(b, e - 1)) * Power(b, f);
    }
  }

  lemma {:induction false} PowerMultiplies(b: int, e: nat, f: nat)
    ensures 0 <= e * f && Power(b, e * f) == Power(Power(b, e), f)
  {
    if f > 0 {
      PowerMultiplies(b, e, f - 1);
      assert e * f == e + e * (f - 1);
      PowerAdds(b, e, e * (f - 1));
    } else {
      assert e * f == 0;
    }
  }

  lemma {:induction false} CongruentPowers(a: int, b: int, e: nat, n: int)
    requires n > 0 && Congruent(a, b, n)
    ensures Congruent(Power(a, e), Power(b, e), n)
  {
    if e > 0 {
      CongruentPowers(a, b, e - 1, n);
      CongruentProducts(a, b, Power(a, e - 1), Power(b, e - 1), n);
    } else {
      FromQuotient(1, 1, n, 0);
    }
  }

  lemma {:induction false} PowersOfOne(e: nat)
    ensures Power(1, e) == 1
  {
    if e > 0 { PowersOfOne(e - 1); }
  }

  lemma {:induction false} OddPowersOfMinusOne(t: nat)
    requires t % 2 == 1
    ensures Power(-1, t) == -1
  {
    if t > 2 {
      OddPowersOfMinusOne(t - 2);
      assert Power(-1, t) == -1 * (-1 * Power(-1, t - 2));
    } else {
      assert Power(-1, 1) == -1 * Power(-1, 0);
    }
  }

  // ---------- 7 to the half of P - 1 ----------

  // 7 to the `e` leaves `r`.
  ghost predicate Leaves(e: nat, r: int) { Congruent(Power(7, e), r, P) }

  lemma Reduce(a: int, r: int, q: int, s: int)
    requires Congruent(a, r, P) && r == q * P + s
    ensures Congruent(a, s, P)
  {
    FromQuotient(r, s, P, q);
    CongruentTrans(a, r, s, P);
  }

  // Squaring doubles the exponent.
  lemma Square(e: nat, r: int, q: int, s: int)
    requires Leaves(e, r) && r * r == q * P + s
    ensures Leaves(2 * e, s)
  {
    hide Power;
    PowerAdds(7, e, e);
    CongruentProducts(Power(7, e), r, Power(7, e), r, P);
    Reduce(Power(7, 2 * e), r * r, q, s);
  }

  // Squaring and multiplying by 7 doubles it and adds one.
  lemma SquareTimes7(e: nat, r: int, q: int, s: int)
    requires Leaves(e, r) && r * r * 7 == q * P + s
    ensures Leaves(2 * e + 1, s)
  {
    PowerAdds(7, e, e);
    assert Power(7, 2 * e + 1) == Power(7, 2 * e) * 7;
    hide Power;
    CongruentProducts(Power(7, e), r, Power(7, e), r, P);
    FromQuotient(7, 7, P, 0);
    CongruentProducts(Power(7, 2 * e), r * r, 7, 7, P);
    Reduce(Power(7, 2 * e + 1), r * r * 7, q, s);
  }

  lemma ClimbTo16()
    ensures Leaves(0xffff, 0xa867_93b7_0b17_04a5)
  {
    FromQuotient(7, 7, P, 0);
    assert Power(7, 1) == 7 * Power(7, 0);
    hide Leaves;
    SquareTimes7(0x1, 0x7, 0x0, 0x157);
    SquareTimes7(0x3, 0x157, 0x0, 0xc_90f7);
    SquareTimes7(0x7, 0xc_90f7, 0x0, 0x451_60b7_a437);
    SquareTimes7(0xf, 0x451_60b7_a437, 0x82_823c, 0x99af_ae24_0f49_187b);
    SquareTimes7(0x1f, 0x99af_ae24_0f49_187b, 0x2_85d8_3f01_100b_6861, 0xa897_4fb5_a161_a54e);
    SquareTimes7(0x3f, 0xa897_4fb5_a161_a54e, 0x3_0930_9e61_ab7b_9eb9, 0x6140_0096_e777_dba3);
    SquareTimes7(0x7f, 0x6140_0096_e777_dba3, 0x1_029a_f323_92a5_546a, 0x70c2_c3d5_1532_b015);
    SquareTimes7(0xff, 0x70c2_c3d5_1532_b015, 0x1_5bac_fcb8_3ed4_8690, 0x246c_0cee_a861_a57f);
    SquareTimes7(0x1ff, 0x246c_0cee_a861_a57f, 0x2445_f8b2_65eb_6b2c, 0x7288_f8ac_3eb1_47db);
    SquareTimes7(0x3ff, 0x7288_f8ac_3eb1_47db, 0x1_66b3_ef53_5982_af54, 0x312d_46fa_4985_c61b);
    SquareTimes7(0x7ff, 0x312d_46fa_4985_c61b, 0x4220_8c41_28d6_c6b0, 0xa647_05c6_baab_a93f);
    SquareTimes7(0xfff, 0xa647_05c6_baab_a93f, 0x2_f401_4a60_792a_0444, 0x8ba3_d55d_2139_aa43);
    SquareTimes7(0x1fff, 0x8ba3_d55d_2139_aa43, 0x2_152f_41d9_d0b6_844e, 0x9185_1167_eece_da71);
    SquareTimes7(0x3fff, 0x9185_1167_eece_da71, 0x2_4308_1436_0cf0_184b, 0x3972_67bb_b0d4_70dc);
    SquareTimes7(0x7fff, 0x3972_67bb_b0d4_70dc, 0x5a3d_053f_47d1_a6cb, 0xa867_93b7_0b17_04a5);
  }

  lemma ClimbTo32()
    ensures Leaves(0xffff_ffff, 0x1856_29dc_da58_878c)
  {
    hide Leaves;
    ClimbTo16();
    SquareTimes7(0xffff, 0xa867_93b7_0b17_04a5, 0x3_0778_c27e_1f0a_c81c, 0x3c0b_da2f_fb16_3853);
    SquareTimes7(0x1_ffff, 0x3c0b_da2f_fb16_3853, 0x6296_e7c5_290d_2053, 0x2de_9087_3f8d_cc0c);
    SquareTimes7(0x3_ffff, 0x2de_9087_3f8d_cc0c, 0x39_a247_b057_c2c3, 0x8bfa_bfdd_7ea6_212d);
    SquareTimes7(0x7_ffff, 0x8bfa_bfdd_7ea6_212d, 0x2_17c7_cdba_e357_ff95, 0x19c0_e0fb_7b44_6dca);
    SquareTimes7(0xf_ffff, 0x19c0_e0fb_7b44_6dca, 0x1222_acd7_9d47_f0c5, 0x69d6_953b_b77f_86f7);
    SquareTimes7(0x1f_ffff, 0x69d6_953b_b77f_86f7, 0x1_324c_17fe_f9cf_dc2f, 0x6c1e_e88c_45c2_b408);
    SquareTimes7(0x3f_ffff, 0x6c1e_e88c_45c2_b408, 0x1_3fa6_a79d_0884_e177, 0x51e7_d705_a299_e049);
    SquareTimes7(0x7f_ffff, 0x51e7_d705_a299_e049, 0xb76f_b833_f31e_b64d, 0x7c00_6a86_cb2e_1b6a);
    SquareTimes7(0xff_ffff, 0x7c00_6a86_cb2e_1b6a, 0x1_a472_d264_ec8e_ceea, 0xb5b6_6fc4_e2a5_e852);
    SquareTimes7(0x1ff_ffff, 0xb5b6_6fc4_e2a5_e852, 0x3_86e0_6470_2b8c_c51a, 0x9c09_c794_6430_52c2);
    SquareTimes7(0x3ff_ffff, 0x9c09_c794_6430_52c2, 0x2_99c3_714a_0cb1_4789, 0x1ca3_70dd_dbd4_b593);
    SquareTimes7(0x7ff_ffff, 0x1ca3_70dd_dbd4_b593, 0x166d_1f42_4508_8fc1, 0xb54f_aaef_eebf_d11e);
    SquareTimes7(0xfff_ffff, 0xb54f_aaef_eebf_d11e, 0x3_82e4_4393_17b1_31f0, 0xe647_9c57_5768_caac);
    SquareTimes7(0x1fff_ffff, 0xe647_9c57_5768_caac, 0x5_aa01_46b8_e8ee_b31f, 0x514f_d349_847c_85d1);
    SquareTimes7(0x3fff_ffff, 0x514f_d349_847c_85d1, 0xb4c9_482c_f5f7_2978, 0xd950_51a3_1cf4_a6ef);
    SquareTimes7(0x7fff_ffff, 0xd950_51a3_1cf4_a6ef, 0x5_0b50_d938_9ccb_3e5b, 0x1856_29dc_da58_878c);
  }

  lemma ClimbTo48()
    ensures Leaves(0xffff_ffff_0000, 0x54df_9630_bf79_450e)
  {
    hide Leaves;
    ClimbTo32();
    Square(0xffff_ffff, 0x1856_29dc_da58_878c, 0x250_44d9_927c_0e37, 0x400a_7f75_5588_e659);
    Square(0x1_ffff_fffe, 0x400a_7f75_5588_e659, 0x1005_4028_ef6a_02ac, 0x7e9b_d009_b86a_0845);
    Square(0x3_ffff_fffc, 0x7e9b_d009_b86a_0845, 0x3e9d_bf9f_64fb_3c33, 0xdfa8_c93b_a46d_2666);
    Square(0x7_ffff_fff8, 0xdfa8_c93b_a46d_2666, 0xc367_7ddf_6854_2c1f, 0x5904_9500_004a_4485);
    Square(0xf_ffff_fff0, 0x5904_9500_004a_4485, 0x1ef4_2faf_1de0_d5fc, 0x10d7_8dd8_915a_171d);
    Square(0x1f_ffff_ffe0, 0x10d7_8dd8_915a_171d, 0x11b_a73a_a3a3_56c3, 0xed41_d05b_78d6_e286);
    Square(0x3f_ffff_ffc0, 0xed41_d05b_78d6_e286, 0xdbe2_ecb5_b1a8_ee4c, 0x4bba_f597_6ecf_efd8);
    Square(0x7f_ffff_ff80, 0x4bba_f597_6ecf_efd8, 0x1667_1470_9cfd_24cf, 0x86cd_cc31_c307_e171);
    Square(0xff_ffff_ff00, 0x86cd_cc31_c307_e171, 0x46fc_1735_09ba_0a56, 0xea9d_5a13_36fb_c98b);
    Square(0x1ff_ffff_fe00, 0xea9d_5a13_36fb_c98b, 0xd704_0963_92cb_4ac4, 0x4b2a_18ad_e672_46b5);
    Square(0x3ff_ffff_fc00, 0x4b2a_18ad_e672_46b5, 0x1611_b162_1689_55a5, 0xf502_aef5_3232_2654);
    Square(0x7ff_ffff_f800, 0xf502_aef5_3232_2654, 0xea7e_22e9_6ff9_2423, 0x30ba_2ecd_5e93_e76d);
    Square(0xfff_ffff_f000, 0x30ba_2ecd_5e93_e76d, 0x946_58f5_17b9_b167, 0xfbd4_1c6b_8caa_3302);
    Square(0x1fff_ffff_e000, 0xfbd4_1c6b_8caa_3302, 0xf7b9_9f7a_f2d8_0d58, 0x8128_1a7b_05f9_beac);
    Square(0x3fff_ffff_c000, 0x8128_1a7b_05f9_beac, 0x4129_70f8_865e_3982, 0xabd0_a6e8_aa3d_8a0e);
    Square(0x7fff_ffff_8000, 0xabd0_a6e8_aa3d_8a0e, 0x7350_690a_eda5_d3b6, 0x54df_9630_bf79_450e);
  }

  lemma ClimbTo63()
    ensures Leaves(0x7fff_ffff_8000_0000, 0xffff_ffff_0000_0000)
  {
    hide Leaves;
    ClimbTo48();
    Square(0xffff_ffff_0000, 0x54df_9630_bf79_450e, 0x1c23_7dd7_1ad5_d218, 0xf6b2_cffe_2306_baac);
    Square(0x1_ffff_fffe_0000, 0xf6b2_cffe_2306_baac, 0xedbc_24a3_3f72_c1ae, 0xe0ee_0993_10bb_a1e2);
    Square(0x3_ffff_fffc_0000, 0xe0ee_0993_10bb_a1e2, 0xc5a1_6e17_f0b8_91ed, 0x1544_ef23_35d1_7997);
    Square(0x7_ffff_fff8_0000, 0x1544_ef23_35d1_7997, 0x1c4_61cb_b2b0_1a5b, 0xf2c3_5199_959d_fcb6);
    Square(0xf_ffff_fff0_0000, 0xf2c3_5199_959d_fcb6, 0xe635_db4c_af11_0895, 0x653_b480_1da1_c8cf);
    Square(0x1f_ffff_ffe0_0000, 0x653_b480_1da1_c8cf, 0x28_07d4_8be3_3def, 0x9d8f_2ad7_8bfe_d972);
    Square(0x3f_ffff_ffc0_0000, 0x9d8f_2ad7_8bfe_d972, 0x60f8_ea9d_a6a9_5776, 0x1905_d02a_5c41_1f4e);
    Square(0x7f_ffff_ff80_0000, 0x1905_d02a_5c41_1f4e, 0x272_22ca_1363_525e, 0xbf79_143c_e60c_a966);
    Square(0xff_ffff_ff00_0000, 0xbf79_143c_e60c_a966, 0x8f35_e577_91a7_d4a3, 0xf800_07ff_0800_0001);
    Square(0x1ff_ffff_fe00_0000, 0xf800_07ff_0800_0001, 0xf040_0f7f_1000_0001, 0x80_0000_0000);
    Square(0x3ff_ffff_fc00_0000, 0x80_0000_0000, 0x4000, 0x3fff_ffff_c000);
    Square(0x7ff_ffff_f800_0000, 0x3fff_ffff_c000, 0xfff_ffff, 0xefff_ffff_0000_0001);
    Square(0xfff_ffff_f000_0000, 0xefff_ffff_0000_0001, 0xe0ff_ffff_0100_0000, 0xffff_fffe_ff00_0001);
    Square(0x1fff_ffff_e000_0000, 0xffff_fffe_ff00_0001, 0xffff_fffe_fe00_0001, 0x1_0000_0000_0000);
    Square(0x3fff_ffff_c000_0000, 0x1_0000_0000_0000, 0x1_0000_0000, 0xffff_ffff_0000_0000);
  }

  const HALF: nat := 0x7fff_ffff_8000_0000

  lemma HalfPowerIsMinusOne()
    ensures Congruent(Power(7, HALF), -1, P)
  {
    hide Power;
    ClimbTo63();
    Reduce(Power(7, HALF), 0xffff_ffff_0000_0000, 1, -1);
  }

  // ---------- a power that is one ----------

  // Among the residues of 7^0, .., 7^d modulo d, two agree.
  function Residues(d: int, n: nat): set<int>
    requires d > 0
  {
    set i | 0 <= i < n :: Power(7, i) % d
  }

  function Below(n: nat): set<int> { if n == 0 then {} else Below(n - 1) + {n - 1} }

  lemma {:induction false} BelowSize(n: nat)
    ensures |Below(n)| == n && forall r :: r in Below(n) <==> 0 <= r < n
  {
    if n > 0 { BelowSize(n - 1); }
  }

  ghost predicate Repeats(d: int, n: nat)
    requires d > 0
  {
    exists i, j :: 0 <= i < j < n && Power(7, i) % d == Power(7, j) % d
  }

  lemma {:induction false} DistinctResidues(d: int, n: nat)
    requires d > 0 && !Repeats(d, n)
    ensures |Residues(d, n)| == n
  {
    hide Power;
    if n == 0 {
      assert Residues(d, 0) == {};
    } else {
      DistinctResidues(d, n - 1);
      assert Residues(d, n) == Residues(d, n - 1) + {Power(7, n - 1) % d};
    }
  }

  lemma SomeRepeat(d: int)
    requires d > 0
    ensures Repeats(d, d + 1)
  {
    hide Power;
    if !Repeats(d, d + 1) {
      DistinctResidues(d, d + 1);
      BelowSize(d);
      assert Residues(d, d + 1) <= Below(d);
      SubsetSize(Residues(d, d + 1), Below(d));
    }
  }

  lemma SameResidue(a: int, b: int, d: int)
    requires d > 0 && a % d == b % d
    ensures Congruent(a, b, d)
  {
    assert a == (a / d) * d + a % d && b == (b / d) * d + b % d;
    assert a == b + (a / d - b / d) * d;
    FromQuotient(a, b, d, a / d - b / d);
  }

  lemma Inherited(a: int, b: int, d: int)
    requires d > 0 && Divides(d, P) && Congruent(a, b, P)
    ensures Congruent(a, b, d)
  {
    MultipleOfMultiple(P, d, a - b);
  }

  // 7^N is one for N = P - 1, so equal powers can be divided.
  lemma FullPowerIsOne(d: int)
    requires d > 0 && Divides(d, P)
    ensures Congruent(Power(7, 2 * HALF), 1, d)
  {
    hide Power;
    HalfPowerIsMinusOne();
    Inherited(Power(7, HALF), -1, d);
    PowerAdds(7, HALF, HALF);
    CongruentProducts(Power(7, HALF), -1, Power(7, HALF), -1, d);
  }

  lemma PowerIsOne(d: int) returns (m: nat)
    requires 0 < d <= 0xffff_ffff && Divides(d, P)
    ensures 1 <= m <= d && Congruent(Power(7, m), 1, d)
  {
    SomeRepeat(d);
    hide Power;
    var i: nat, j: nat :| 0 <= i < j < d + 1 && Power(7, i) % d == Power(7, j) % d;
    m := j - i;
    var n := 2 * HALF;
    SameResidue(Power(7, j), Power(7, i), d);
    FullPowerIsOne(d);
    PowerAdds(7, n - i, j);
    PowerAdds(7, n - i, i);
    PowerAdds(7, n, m);
    FromQuotient(Power(7, n - i), Power(7, n - i), d, 0);
    CongruentProducts(Power(7, n - i), Power(7, n - i), Power(7, j), Power(7, i), d);
    CongruentTrans(Power(7, n + m), Power(7, n), 1, d);
    FromQuotient(Power(7, m), Power(7, m), d, 0);
    CongruentProducts(Power(7, n), 1, Power(7, m), Power(7, m), d);
    CongruentTrans(Power(7, n + m), Power(7, m), Power(7, m), d);
    CongruentTrans(Power(7, m), Power(7, n + m), 1, d);
  }

  // ---------- two facts that cannot both be ----------

  lemma {:induction false} OddPart(m: nat) returns (s: nat, t: nat)
    requires m >= 1
    ensures t % 2 == 1 && m == Power(2, s) * t
  {
    if m % 2 == 1 {
      s, t := 0, m;
    } else {
      s, t := OddPart(m / 2);
      assert m == 2 * (Power(2, s) * t) == (2 * Power(2, s)) * t;
      s := s + 1;
    }
  }

  lemma {:induction false} PowersOfTwoGrow(s: nat, t: nat)
    requires s <= t
    ensures 1 <= Power(2, s) <= Power(2, t)
    decreases t
  {
    if s < t {
      PowersOfTwoGrow(s, t - 1);
    } else if s > 0 {
      PowersOfTwoGrow(s - 1, s - 1);
    }
  }

  lemma ThirtyOne()
    ensures Power(2, 31) == 0x8000_0000 && Power(2, 32) == 0x1_0000_0000
  {
    assert Power(2, 4) == 16;
    assert Power(2, 3) == 8;
    hide Power;
    PowerAdds(2, 4, 4);
    PowerAdds(2, 8, 8);
    PowerAdds(2, 4, 3);
    PowerAdds(2, 8, 7);
    PowerAdds(2, 16, 15);
    PowerAdds(2, 16, 16);
  }

  // m times something is an odd multiple of HALF.
  lemma OddMultiple(m: nat) returns (x: nat, t: nat)
    requires 1 <= m <= 0xffff_ffff
    ensures t % 2 == 1 && m * x == HALF * t
  {
    var s;
    s, t := OddPart(m);
    ThirtyOne();
    hide Power;
    if s >= 32 {
      PowersOfTwoGrow(32, s);
      MulGrows(1, t, Power(2, s));
      assert false;
    }
    PowerAdds(2, s, 31 - s);
    PowersOfTwoGrow(31 - s, 31);
    var up := Power(2, 31 - s);
    x := up * 0xffff_ffff;
    Regroup(Power(2, s), t, up);
  }

  lemma Regroup(a: int, t: int, up: int)
    requires a * up == 0x8000_0000
    ensures (a * t) * (up * 0xffff_ffff) == HALF * t
  {
    assert (a * t) * (up * 0xffff_ffff) == (a * up) * (t * 0xffff_ffff);
  }

  // With both, every small divisor of P divides 2.
  lemma SmallFactorDividesTwo(d: int)
    requires 1 <= d <= 0xffff_ffff && Divides(d, P)
    ensures Divides(d, 2)
  {
    hide Power;
    var m := PowerIsOne(d);
    var x, t := OddMultiple(m);
    PowerMultiplies(7, m, x);
    PowerMultiplies(7, HALF, t);
    CongruentPowers(Power(7, m), 1, x, d);
    PowersOfOne(x);
    HalfPowerIsMinusOne();
    Inherited(Power(7, HALF), -1, d);
    CongruentPowers(Power(7, HALF), -1, t, d);
    OddPowersOfMinusOne(t);
    CongruentTrans(Power(7, m * x), 1, 1, d);
    CongruentTrans(1, Power(7, m * x), -1, d);
  }

  lemma DivisorsOfTwo(d: int)
    requires d >= 1 && Divides(d, 2)
    ensures d <= 2
  {
  }

  lemma IsPrimeNumber()
    ensures Prime(P)
  {
    forall k | 2 <= k < P
      ensures !Divides(k, P)
    {
      if Divides(k, P) {
        var d := SmallDivisor(P, k);
        if d >= 0x1_0000_0000 {
          SquareGrows(0x1_0000_0000, d);
          assert false;
        }
        SmallFactorDividesTwo(d);
        DivisorsOfTwo(d);
      }
    }
  }

  // The test does overflow: on this prime, for one.
  lemma SomeNumberOverflows()
    ensures P <= U64_MAX && Verdict(P) == Overflow && !Spared(P + 1)
  {
    IsPrimeNumber();
    assert PrimeCount(OVERFLOW_FLOOR, P + 1) == PrimeCount(OVERFLOW_FLOOR, P) + 1;
  }
}
