/**
 The examples of RFC 3174 and RFC 1321 worked out word by word: the digests of "abc". They tie the
 constants, the functions of the rounds, the order of the bytes and of the steps to the standards.
 */
module HashVectors {
  import opened HashBlocks
  import Md5
  import Sha1

  const ABC: seq<bv8> := [0x61, 0x62, 0x63]

  // ---- SHA-1 ----

  /** Word t of the schedule. */
  ghost predicate Word(m: seq<bv8>, t: nat, v: bv32) {
    |m| == 64 && t < 80 && Sha1.Schedule(m, 80)[t] == v
  }

  /** The registers after t steps. */
  ghost predicate After(m: seq<bv8>, t: nat, a: bv32, b: bv32, c: bv32, d: bv32, e: bv32) {
    |m| == 64 && t <= 80 && Sha1.RfcSteps(Sha1.START, Sha1.Schedule(m, 80), t) == [a, b, c, d, e]
  }

  lemma {:induction false} SchedulePrefix(m: seq<bv8>, t: nat, n: nat)
    requires |m| == 64 && t <= n <= 80
    ensures Sha1.Schedule(m, n)[..t] == Sha1.Schedule(m, t)
    decreases n
  {
    hide Sha1.BeWord, Sha1.Rotl, Sha1.Xor4;
    if t < n {
      SchedulePrefix(m, t, n - 1);
    }
  }

  lemma FirstWord(m: seq<bv8>, t: nat)
    requires |m| == 64 && t < 16
    ensures Word(m, t, Sha1.BeWord(m, t))
  {
    hide Sha1.BeWord, Sha1.Rotl, Sha1.Xor4;
    SchedulePrefix(m, t + 1, 80);
    assert Sha1.Schedule(m, 80)[t] == Sha1.Schedule(m, 80)[..t + 1][t];
  }

  lemma NextWord(m: seq<bv8>, t: nat, w3: bv32, w8: bv32, w14: bv32, w16: bv32, v: bv32)
    requires |m| == 64 && 16 <= t < 80 && Sha1.Rotl(Sha1.Xor4(w3, w8, w14, w16), 1) == v
    requires Word(m, t - 3, w3) && Word(m, t - 8, w8) && Word(m, t - 14, w14) && Word(m, t - 16, w16)
    ensures Word(m, t, v)
  {
    hide Sha1.BeWord, Sha1.Rotl, Sha1.Xor4;
    SchedulePrefix(m, t + 1, 80);
    SchedulePrefix(m, t, 80);
    var s := Sha1.Schedule(m, 80);
    assert s[t] == s[..t + 1][t] && s[t - 3] == s[..t][t - 3] && s[t - 8] == s[..t][t - 8];
    assert s[t - 14] == s[..t][t - 14] && s[t - 16] == s[..t][t - 16];
  }

  lemma NextStep(m: seq<bv8>, t: nat, a: bv32, b: bv32, c: bv32, d: bv32, e: bv32, w: bv32, n: bv32)
    requires |m| == 64 && t < 80 && After(m, t, a, b, c, d, e) && Word(m, t, w)
    requires n == Sha1.Add(e, Sha1.Add(Sha1.Add(Sha1.Add(Sha1.F(t, b, c, d), w), Sha1.K(t)), Sha1.Rotl(a, 5)))
    ensures After(m, t + 1, n, a, Sha1.Rotl(b, 30), c, d)
  {
    hide Sha1.Add, Sha1.Rotl, Sha1.F, Sha1.K, Sha1.Schedule;
  }

  /** The schedule of the one block of "abc". */
  ghost predicate FirstWords(m: seq<bv8>) {
    && Word(m, 0, 0x61626380) && Word(m, 1, 0x00000000) && Word(m, 2, 0x00000000) && Word(m, 3, 0x00000000)
    && Word(m, 4, 0x00000000) && Word(m, 5, 0x00000000) && Word(m, 6, 0x00000000) && Word(m, 7, 0x00000000)
    && Word(m, 8, 0x00000000) && Word(m, 9, 0x00000000) && Word(m, 10, 0x00000000) && Word(m, 11, 0x00000000)
    && Word(m, 12, 0x00000000) && Word(m, 13, 0x00000000) && Word(m, 14, 0x00000000) && Word(m, 15, 0x00000018)
    && Word(m, 16, 0xc2c4c700) && Word(m, 17, 0x00000000) && Word(m, 18, 0x00000030) && Word(m, 19, 0x85898e01)
  }

  ghost predicate SecondWords(m: seq<bv8>) {
    && Word(m, 20, 0x00000000) && Word(m, 21, 0x00000060) && Word(m, 22, 0x0b131c03) && Word(m, 23, 0x00000030)
    && Word(m, 24, 0x85898ec1) && Word(m, 25, 0x16263806) && Word(m, 26, 0x00000000) && Word(m, 27, 0x00000180)
    && Word(m, 28, 0x2c4c700c) && Word(m, 29, 0x000000f0) && Word(m, 30, 0x93afb507) && Word(m, 31, 0x5898e048)
    && Word(m, 32, 0x8e9a9202) && Word(m, 33, 0x00000600) && Word(m, 34, 0xb131c0f0) && Word(m, 35, 0x16263bc6)
    && Word(m, 36, 0x4ebed41e) && Word(m, 37, 0x626380a1) && Word(m, 38, 0x16263806) && Word(m, 39, 0x000018c0)
  }

  ghost predicate ThirdWords(m: seq<bv8>) {
    && Word(m, 40, 0xd2e138c4) && Word(m, 41, 0x00000f00) && Word(m, 42, 0x3afb5079) && Word(m, 43, 0x898e04e5)
    && Word(m, 44, 0xe2ba3c2b) && Word(m, 45, 0x000060c0) && Word(m, 46, 0x053a37cd) && Word(m, 47, 0x74458547)
    && Word(m, 48, 0xda9415ed) && Word(m, 49, 0x26380a16) && Word(m, 50, 0x626383a1) && Word(m, 51, 0x4ebf54de)
    && Word(m, 52, 0x3835b44b) && Word(m, 53, 0x0000f600) && Word(m, 54, 0x1e84c7a3) && Word(m, 55, 0x98e04d98)
    && Word(m, 56, 0x651d16a0) && Word(m, 57, 0x62658ca1) && Word(m, 58, 0x458544d6) && Word(m, 59, 0x44584cb7)
  }

  ghost predicate FourthWords(m: seq<bv8>) {
    && Word(m, 60, 0x7ba06619) && Word(m, 61, 0x6380aea2) && Word(m, 62, 0x0ae55269) && Word(m, 63, 0x627b49a1)
    && Word(m, 64, 0x7cd45c9d) && Word(m, 65, 0x000f0000) && Word(m, 66, 0xfb50753a) && Word(m, 67, 0xec6765e8)
    && Word(m, 68, 0xba3c2be2) && Word(m, 69, 0x0060c000) && Word(m, 70, 0x3a37cd05) && Word(m, 71, 0x458546f4)
    && Word(m, 72, 0xb8599dd6) && Word(m, 73, 0x380a1a26) && Word(m, 74, 0x01e02203) && Word(m, 75, 0xe7cc3456)
    && Word(m, 76, 0xe6e60b69) && Word(m, 77, 0x00f60a00) && Word(m, 78, 0x5795ef4f) && Word(m, 79, 0x822e0879)
  }

  /** The schedule begins with the words of the block. */
  ghost predicate AbcBlock(m: seq<bv8>) {
    && Word(m, 0, 0x61626380) && Word(m, 1, 0x00000000) && Word(m, 2, 0x00000000) && Word(m, 3, 0x00000000)
    && Word(m, 4, 0x00000000) && Word(m, 5, 0x00000000) && Word(m, 6, 0x00000000) && Word(m, 7, 0x00000000)
    && Word(m, 8, 0x00000000) && Word(m, 9, 0x00000000) && Word(m, 10, 0x00000000) && Word(m, 11, 0x00000000)
    && Word(m, 12, 0x00000000) && Word(m, 13, 0x00000000) && Word(m, 14, 0x00000000) && Word(m, 15, 0x00000018)
  }

  lemma ScheduleOfAbc(m: seq<bv8>)
    requires |m| == 64 && AbcBlock(m)
    ensures FirstWords(m) && SecondWords(m) && ThirdWords(m) && FourthWords(m)
  {
    hide Word;
    NextWord(m, 16, 0x00000000, 0x00000000, 0x00000000, 0x61626380, 0xc2c4c700);
    NextWord(m, 17, 0x00000000, 0x00000000, 0x00000000, 0x00000000, 0x00000000);
    NextWord(m, 18, 0x00000018, 0x00000000, 0x00000000, 0x00000000, 0x00000030);
    NextWord(m, 19, 0xc2c4c700, 0x00000000, 0x00000000, 0x00000000, 0x85898e01);
    NextWord(m, 20, 0x00000000, 0x00000000, 0x00000000, 0x00000000, 0x00000000);
    NextWord(m, 21, 0x00000030, 0x00000000, 0x00000000, 0x00000000, 0x00000060);
    NextWord(m, 22, 0x85898e01, 0x00000000, 0x00000000, 0x00000000, 0x0b131c03);
    NextWord(m, 23, 0x00000000, 0x00000018, 0x00000000, 0x00000000, 0x00000030);
    NextWord(m, 24, 0x00000060, 0xc2c4c700, 0x00000000, 0x00000000, 0x85898ec1);
    NextWord(m, 25, 0x0b131c03, 0x00000000, 0x00000000, 0x00000000, 0x16263806);
    NextWord(m, 26, 0x00000030, 0x00000030, 0x00000000, 0x00000000, 0x00000000);
    NextWord(m, 27, 0x85898ec1, 0x85898e01, 0x00000000, 0x00000000, 0x00000180);
    NextWord(m, 28, 0x16263806, 0x00000000, 0x00000000, 0x00000000, 0x2c4c700c);
    NextWord(m, 29, 0x00000000, 0x00000060, 0x00000018, 0x00000000, 0x000000f0);
    NextWord(m, 30, 0x00000180, 0x0b131c03, 0xc2c4c700, 0x00000000, 0x93afb507);
    NextWord(m, 31, 0x2c4c700c, 0x00000030, 0x00000000, 0x00000018, 0x5898e048);
    NextWord(m, 32, 0x000000f0, 0x85898ec1, 0x00000030, 0xc2c4c700, 0x8e9a9202);
    NextWord(m, 33, 0x93afb507, 0x16263806, 0x85898e01, 0x00000000, 0x00000600);
    NextWord(m, 34, 0x5898e048, 0x00000000, 0x00000000, 0x00000030, 0xb131c0f0);
    NextWord(m, 35, 0x8e9a9202, 0x00000180, 0x00000060, 0x85898e01, 0x16263bc6);
    NextWord(m, 36, 0x00000600, 0x2c4c700c, 0x0b131c03, 0x00000000, 0x4ebed41e);
    NextWord(m, 37, 0xb131c0f0, 0x000000f0, 0x00000030, 0x00000060, 0x626380a1);
    NextWord(m, 38, 0x16263bc6, 0x93afb507, 0x85898ec1, 0x0b131c03, 0x16263806);
    NextWord(m, 39, 0x4ebed41e, 0x5898e048, 0x16263806, 0x00000030, 0x000018c0);
    NextWord(m, 40, 0x626380a1, 0x8e9a9202, 0x00000000, 0x85898ec1, 0xd2e138c4);
    NextWord(m, 41, 0x16263806, 0x00000600, 0x00000180, 0x16263806, 0x00000f00);
    NextWord(m, 42, 0x000018c0, 0xb131c0f0, 0x2c4c700c, 0x00000000, 0x3afb5079);
    NextWord(m, 43, 0xd2e138c4, 0x16263bc6, 0x000000f0, 0x00000180, 0x898e04e5);
    NextWord(m, 44, 0x00000f00, 0x4ebed41e, 0x93afb507, 0x2c4c700c, 0xe2ba3c2b);
    NextWord(m, 45, 0x3afb5079, 0x626380a1, 0x5898e048, 0x000000f0, 0x000060c0);
    NextWord(m, 46, 0x898e04e5, 0x16263806, 0x8e9a9202, 0x93afb507, 0x053a37cd);
    NextWord(m, 47, 0xe2ba3c2b, 0x000018c0, 0x00000600, 0x5898e048, 0x74458547);
    NextWord(m, 48, 0x000060c0, 0xd2e138c4, 0xb131c0f0, 0x8e9a9202, 0xda9415ed);
    NextWord(m, 49, 0x053a37cd, 0x00000f00, 0x16263bc6, 0x00000600, 0x26380a16);
    NextWord(m, 50, 0x74458547, 0x3afb5079, 0x4ebed41e, 0xb131c0f0, 0x626383a1);
    NextWord(m, 51, 0xda9415ed, 0x898e04e5, 0x626380a1, 0x16263bc6, 0x4ebf54de);
    NextWord(m, 52, 0x26380a16, 0xe2ba3c2b, 0x16263806, 0x4ebed41e, 0x3835b44b);
    NextWord(m, 53, 0x626383a1, 0x000060c0, 0x000018c0, 0x626380a1, 0x0000f600);
    NextWord(m, 54, 0x4ebf54de, 0x053a37cd, 0xd2e138c4, 0x16263806, 0x1e84c7a3);
    NextWord(m, 55, 0x3835b44b, 0x74458547, 0x00000f00, 0x000018c0, 0x98e04d98);
    NextWord(m, 56, 0x0000f600, 0xda9415ed, 0x3afb5079, 0xd2e138c4, 0x651d16a0);
    NextWord(m, 57, 0x1e84c7a3, 0x26380a16, 0x898e04e5, 0x00000f00, 0x62658ca1);
    NextWord(m, 58, 0x98e04d98, 0x626383a1, 0xe2ba3c2b, 0x3afb5079, 0x458544d6);
    NextWord(m, 59, 0x651d16a0, 0x4ebf54de, 0x000060c0, 0x898e04e5, 0x44584cb7);
    NextWord(m, 60, 0x62658ca1, 0x3835b44b, 0x053a37cd, 0xe2ba3c2b, 0x7ba06619);
    NextWord(m, 61, 0x458544d6, 0x0000f600, 0x74458547, 0x000060c0, 0x6380aea2);
    NextWord(m, 62, 0x44584cb7, 0x1e84c7a3, 0xda9415ed, 0x053a37cd, 0x0ae55269);
    NextWord(m, 63, 0x7ba06619, 0x98e04d98, 0x26380a16, 0x74458547, 0x627b49a1);
    NextWord(m, 64, 0x6380aea2, 0x651d16a0, 0x626383a1, 0xda9415ed, 0x7cd45c9d);
    NextWord(m, 65, 0x0ae55269, 0x62658ca1, 0x4ebf54de, 0x26380a16, 0x000f0000);
    NextWord(m, 66, 0x627b49a1, 0x458544d6, 0x3835b44b, 0x626383a1, 0xfb50753a);
    NextWord(m, 67, 0x7cd45c9d, 0x44584cb7, 0x0000f600, 0x4ebf54de, 0xec6765e8);
    NextWord(m, 68, 0x000f0000, 0x7ba06619, 0x1e84c7a3, 0x3835b44b, 0xba3c2be2);
    NextWord(m, 69, 0xfb50753a, 0x6380aea2, 0x98e04d98, 0x0000f600, 0x0060c000);
    NextWord(m, 70, 0xec6765e8, 0x0ae55269, 0x651d16a0, 0x1e84c7a3, 0x3a37cd05);
    NextWord(m, 71, 0xba3c2be2, 0x627b49a1, 0x62658ca1, 0x98e04d98, 0x458546f4);
    NextWord(m, 72, 0x0060c000, 0x7cd45c9d, 0x458544d6, 0x651d16a0, 0xb8599dd6);
    NextWord(m, 73, 0x3a37cd05, 0x000f0000, 0x44584cb7, 0x62658ca1, 0x380a1a26);
    NextWord(m, 74, 0x458546f4, 0xfb50753a, 0x7ba06619, 0x458544d6, 0x01e02203);
    NextWord(m, 75, 0xb8599dd6, 0xec6765e8, 0x6380aea2, 0x44584cb7, 0xe7cc3456);
    NextWord(m, 76, 0x380a1a26, 0xba3c2be2, 0x0ae55269, 0x7ba06619, 0xe6e60b69);
    NextWord(m, 77, 0x01e02203, 0x0060c000, 0x627b49a1, 0x6380aea2, 0x00f60a00);
    NextWord(m, 78, 0xe7cc3456, 0x3a37cd05, 0x7cd45c9d, 0x0ae55269, 0x5795ef4f);
    NextWord(m, 79, 0xe6e60b69, 0x458546f4, 0x000f0000, 0x627b49a1, 0x822e0879);
  }

  lemma FirstTwenty(m: seq<bv8>)
    requires |m| == 64 && FirstWords(m)
    requires After(m, 0, 0x67452301, 0xefcdab89, 0x98badcfe, 0x10325476, 0xc3d2e1f0)
    ensures After(m, 20, 0xfd9e1d7d, 0xdc64901d, 0x20aa99ca, 0xd3a49608, 0xc82f758b)
  {
    hide Word, After;
    NextStep(m, 0, 0x67452301, 0xefcdab89, 0x98badcfe, 0x10325476, 0xc3d2e1f0, 0x61626380, 0x0116fc33);
    NextStep(m, 1, 0x0116fc33, 0x67452301, 0x7bf36ae2, 0x98badcfe, 0x10325476, 0x00000000, 0x8990536d);
    NextStep(m, 2, 0x8990536d, 0x0116fc33, 0x59d148c0, 0x7bf36ae2, 0x98badcfe, 0x00000000, 0xa1390f08);
    NextStep(m, 3, 0xa1390f08, 0x8990536d, 0xc045bf0c, 0x59d148c0, 0x7bf36ae2, 0x00000000, 0xcdd8e11b);
    NextStep(m, 4, 0xcdd8e11b, 0xa1390f08, 0x626414db, 0xc045bf0c, 0x59d148c0, 0x00000000, 0xcfd499de);
    NextStep(m, 5, 0xcfd499de, 0xcdd8e11b, 0x284e43c2, 0x626414db, 0xc045bf0c, 0x00000000, 0x3fc7ca40);
    NextStep(m, 6, 0x3fc7ca40, 0xcfd499de, 0xf3763846, 0x284e43c2, 0x626414db, 0x00000000, 0x993e30c1);
    NextStep(m, 7, 0x993e30c1, 0x3fc7ca40, 0xb3f52677, 0xf3763846, 0x284e43c2, 0x00000000, 0x9e8c07d4);
    NextStep(m, 8, 0x9e8c07d4, 0x993e30c1, 0x0ff1f290, 0xb3f52677, 0xf3763846, 0x00000000, 0x4b6ae328);
    NextStep(m, 9, 0x4b6ae328, 0x9e8c07d4, 0x664f8c30, 0x0ff1f290, 0xb3f52677, 0x00000000, 0x8351f929);
    NextStep(m, 10, 0x8351f929, 0x4b6ae328, 0x27a301f5, 0x664f8c30, 0x0ff1f290, 0x00000000, 0xfbda9e89);
    NextStep(m, 11, 0xfbda9e89, 0x8351f929, 0x12dab8ca, 0x27a301f5, 0x664f8c30, 0x00000000, 0x63188fe4);
    NextStep(m, 12, 0x63188fe4, 0xfbda9e89, 0x60d47e4a, 0x12dab8ca, 0x27a301f5, 0x00000000, 0x4607b664);
    NextStep(m, 13, 0x4607b664, 0x63188fe4, 0x7ef6a7a2, 0x60d47e4a, 0x12dab8ca, 0x00000000, 0x9128f695);
    NextStep(m, 14, 0x9128f695, 0x4607b664, 0x18c623f9, 0x7ef6a7a2, 0x60d47e4a, 0x00000000, 0x196bee77);
    NextStep(m, 15, 0x196bee77, 0x9128f695, 0x1181ed99, 0x18c623f9, 0x7ef6a7a2, 0x00000018, 0x20bdd62f);
    NextStep(m, 16, 0x20bdd62f, 0x196bee77, 0x644a3da5, 0x1181ed99, 0x18c623f9, 0xc2c4c700, 0x4e925823);
    NextStep(m, 17, 0x4e925823, 0x20bdd62f, 0xc65afb9d, 0x644a3da5, 0x1181ed99, 0x00000000, 0x82aa6728);
    NextStep(m, 18, 0x82aa6728, 0x4e925823, 0xc82f758b, 0xc65afb9d, 0x644a3da5, 0x00000030, 0xdc64901d);
    NextStep(m, 19, 0xdc64901d, 0x82aa6728, 0xd3a49608, 0xc82f758b, 0xc65afb9d, 0x85898e01, 0xfd9e1d7d);
  }

  lemma SecondTwenty(m: seq<bv8>)
    requires |m| == 64 && SecondWords(m)
    requires After(m, 20, 0xfd9e1d7d, 0xdc64901d, 0x20aa99ca, 0xd3a49608, 0xc82f758b)
    ensures After(m, 40, 0x32de1cba, 0x4c986405, 0xf718e5cf, 0x03d447f6, 0xf72eec32)
  {
    hide Word, After;
    NextStep(m, 20, 0xfd9e1d7d, 0xdc64901d, 0x20aa99ca, 0xd3a49608, 0xc82f758b, 0x00000000, 0x1a37b0ca);
    NextStep(m, 21, 0x1a37b0ca, 0xfd9e1d7d, 0x77192407, 0x20aa99ca, 0xd3a49608, 0x00000060, 0x33a23bfc);
    NextStep(m, 22, 0x33a23bfc, 0x1a37b0ca, 0x7f67875f, 0x77192407, 0x20aa99ca, 0x0b131c03, 0x21283486);
    NextStep(m, 23, 0x21283486, 0x33a23bfc, 0x868dec32, 0x7f67875f, 0x77192407, 0x00000030, 0xd541f12d);
    NextStep(m, 24, 0xd541f12d, 0x21283486, 0x0ce88eff, 0x868dec32, 0x7f67875f, 0x85898ec1, 0xc7567dc6);
    NextStep(m, 25, 0xc7567dc6, 0xd541f12d, 0x884a0d21, 0x0ce88eff, 0x868dec32, 0x16263806, 0x48413ba4);
    NextStep(m, 26, 0x48413ba4, 0xc7567dc6, 0x75507c4b, 0x884a0d21, 0x0ce88eff, 0x00000000, 0xbe35fbd5);
    NextStep(m, 27, 0xbe35fbd5, 0x48413ba4, 0xb1d59f71, 0x75507c4b, 0x884a0d21, 0x00000180, 0x4aa84d97);
    NextStep(m, 28, 0x4aa84d97, 0xbe35fbd5, 0x12104ee9, 0xb1d59f71, 0x75507c4b, 0x2c4c700c, 0x8370b52e);
    NextStep(m, 29, 0x8370b52e, 0x4aa84d97, 0x6f8d7ef5, 0x12104ee9, 0xb1d59f71, 0x000000f0, 0xc5fbaf5d);
    NextStep(m, 30, 0xc5fbaf5d, 0x8370b52e, 0xd2aa1365, 0x6f8d7ef5, 0x12104ee9, 0x93afb507, 0x1267b407);
    NextStep(m, 31, 0x1267b407, 0xc5fbaf5d, 0xa0dc2d4b, 0xd2aa1365, 0x6f8d7ef5, 0x5898e048, 0x3b845d33);
    NextStep(m, 32, 0x3b845d33, 0x1267b407, 0x717eebd7, 0xa0dc2d4b, 0xd2aa1365, 0x8e9a9202, 0x046faa0a);
    NextStep(m, 33, 0x046faa0a, 0x3b845d33, 0xc499ed01, 0x717eebd7, 0xa0dc2d4b, 0x00000600, 0x2c0ebc11);
    NextStep(m, 34, 0x2c0ebc11, 0x046faa0a, 0xcee1174c, 0xc499ed01, 0x717eebd7, 0xb131c0f0, 0x21796ad4);
    NextStep(m, 35, 0x21796ad4, 0x2c0ebc11, 0x811bea82, 0xcee1174c, 0xc499ed01, 0x16263bc6, 0xdcbbb0cb);
    NextStep(m, 36, 0xdcbbb0cb, 0x21796ad4, 0x4b03af04, 0x811bea82, 0xcee1174c, 0x4ebed41e, 0x0f511fd8);
    NextStep(m, 37, 0x0f511fd8, 0xdcbbb0cb, 0x085e5ab5, 0x4b03af04, 0x811bea82, 0x626380a1, 0xdc63973f);
    NextStep(m, 38, 0xdc63973f, 0x0f511fd8, 0xf72eec32, 0x085e5ab5, 0x4b03af04, 0x16263806, 0x4c986405);
    NextStep(m, 39, 0x4c986405, 0xdc63973f, 0x03d447f6, 0xf72eec32, 0x085e5ab5, 0x000018c0, 0x32de1cba);
  }

  lemma ThirdTwenty(m: seq<bv8>)
    requires |m| == 64 && ThirdWords(m)
    requires After(m, 40, 0x32de1cba, 0x4c986405, 0xf718e5cf, 0x03d447f6, 0xf72eec32)
    ensures After(m, 60, 0x3f52de5a, 0x09d785fd, 0x3498bfd4, 0xf211824f, 0xd79915ab)
  {
    hide Word, After;
    NextStep(m, 40, 0x32de1cba, 0x4c986405, 0xf718e5cf, 0x03d447f6, 0xf72eec32, 0xd2e138c4, 0xfc87dedf);
    NextStep(m, 41, 0xfc87dedf, 0x32de1cba, 0x53261901, 0xf718e5cf, 0x03d447f6, 0x00000f00, 0x970a0d5c);
    NextStep(m, 42, 0x970a0d5c, 0xfc87dedf, 0x8cb7872e, 0x53261901, 0xf718e5cf, 0x3afb5079, 0x7f193dc5);
    NextStep(m, 43, 0x7f193dc5, 0x970a0d5c, 0xff21f7b7, 0x8cb7872e, 0x53261901, 0x898e04e5, 0xee1b1aaf);
    NextStep(m, 44, 0xee1b1aaf, 0x7f193dc5, 0x25c28357, 0xff21f7b7, 0x8cb7872e, 0xe2ba3c2b, 0x40f28e09);
    NextStep(m, 45, 0x40f28e09, 0xee1b1aaf, 0x5fc64f71, 0x25c28357, 0xff21f7b7, 0x000060c0, 0x1c51e1f2);
    NextStep(m, 46, 0x1c51e1f2, 0x40f28e09, 0xfb86c6ab, 0x5fc64f71, 0x25c28357, 0x053a37cd, 0xa01b846c);
    NextStep(m, 47, 0xa01b846c, 0x1c51e1f2, 0x503ca382, 0xfb86c6ab, 0x5fc64f71, 0x74458547, 0xbead02ca);
    NextStep(m, 48, 0xbead02ca, 0xa01b846c, 0x8714787c, 0x503ca382, 0xfb86c6ab, 0xda9415ed, 0xbaf39337);
    NextStep(m, 49, 0xbaf39337, 0xbead02ca, 0x2806e11b, 0x8714787c, 0x503ca382, 0x26380a16, 0x120731c5);
    NextStep(m, 50, 0x120731c5, 0xbaf39337, 0xafab40b2, 0x2806e11b, 0x8714787c, 0x626383a1, 0x641db2ce);
    NextStep(m, 51, 0x641db2ce, 0x120731c5, 0xeebce4cd, 0xafab40b2, 0x2806e11b, 0x4ebf54de, 0x3847ad66);
    NextStep(m, 52, 0x3847ad66, 0x641db2ce, 0x4481cc71, 0xeebce4cd, 0xafab40b2, 0x3835b44b, 0xe490436d);
    NextStep(m, 53, 0xe490436d, 0x3847ad66, 0x99076cb3, 0x4481cc71, 0xeebce4cd, 0x0000f600, 0x27e9f1d8);
    NextStep(m, 54, 0x27e9f1d8, 0xe490436d, 0x8e11eb59, 0x99076cb3, 0x4481cc71, 0x1e84c7a3, 0x7b71f76d);
    NextStep(m, 55, 0x7b71f76d, 0x27e9f1d8, 0x792410db, 0x8e11eb59, 0x99076cb3, 0x98e04d98, 0x5e6456af);
    NextStep(m, 56, 0x5e6456af, 0x7b71f76d, 0x09fa7c76, 0x792410db, 0x8e11eb59, 0x651d16a0, 0xc846093f);
    NextStep(m, 57, 0xc846093f, 0x5e6456af, 0x5edc7ddb, 0x09fa7c76, 0x792410db, 0x62658ca1, 0xd262ff50);
    NextStep(m, 58, 0xd262ff50, 0xc846093f, 0xd79915ab, 0x5edc7ddb, 0x09fa7c76, 0x458544d6, 0x09d785fd);
    NextStep(m, 59, 0x09d785fd, 0xd262ff50, 0xf211824f, 0xd79915ab, 0x5edc7ddb, 0x44584cb7, 0x3f52de5a);
  }

  lemma FourthTwenty(m: seq<bv8>)
    requires |m| == 64 && FourthWords(m)
    requires After(m, 60, 0x3f52de5a, 0x09d785fd, 0x3498bfd4, 0xf211824f, 0xd79915ab)
    ensures After(m, 80, 0x42541b35, 0x5738d5e1, 0x21834873, 0x681e6df6, 0xd8fdf6ad)
  {
    hide Word, After;
    NextStep(m, 60, 0x3f52de5a, 0x09d785fd, 0x3498bfd4, 0xf211824f, 0xd79915ab, 0x7ba06619, 0xd756c147);
    NextStep(m, 61, 0xd756c147, 0x3f52de5a, 0x4275e17f, 0x3498bfd4, 0xf211824f, 0x6380aea2, 0x548c9cb2);
    NextStep(m, 62, 0x548c9cb2, 0xd756c147, 0x8fd4b796, 0x4275e17f, 0x3498bfd4, 0x0ae55269, 0xb66c020b);
    NextStep(m, 63, 0xb66c020b, 0x548c9cb2, 0xf5d5b051, 0x8fd4b796, 0x4275e17f, 0x627b49a1, 0x6b61c9e1);
    NextStep(m, 64, 0x6b61c9e1, 0xb66c020b, 0x9523272c, 0xf5d5b051, 0x8fd4b796, 0x7cd45c9d, 0x19dfa7ac);
    NextStep(m, 65, 0x19dfa7ac, 0x6b61c9e1, 0xed9b0082, 0x9523272c, 0xf5d5b051, 0x000f0000, 0x101655f9);
    NextStep(m, 66, 0x101655f9, 0x19dfa7ac, 0x5ad87278, 0xed9b0082, 0x9523272c, 0xfb50753a, 0x0c3df2b4);
    NextStep(m, 67, 0x0c3df2b4, 0x101655f9, 0x0677e9eb, 0x5ad87278, 0xed9b0082, 0xec6765e8, 0x78dd4d2b);
    NextStep(m, 68, 0x78dd4d2b, 0x0c3df2b4, 0x4405957e, 0x0677e9eb, 0x5ad87278, 0xba3c2be2, 0x497093c0);
    NextStep(m, 69, 0x497093c0, 0x78dd4d2b, 0x030f7cad, 0x4405957e, 0x0677e9eb, 0x0060c000, 0x3f2588c2);
    NextStep(m, 70, 0x3f2588c2, 0x497093c0, 0xde37534a, 0x030f7cad, 0x4405957e, 0x3a37cd05, 0xc199f8c7);
    NextStep(m, 71, 0xc199f8c7, 0x3f2588c2, 0x125c24f0, 0xde37534a, 0x030f7cad, 0x458546f4, 0x39859de7);
    NextStep(m, 72, 0x39859de7, 0xc199f8c7, 0x8fc96230, 0x125c24f0, 0xde37534a, 0xb8599dd6, 0xedb42de4);
    NextStep(m, 73, 0xedb42de4, 0x39859de7, 0xf0667e31, 0x8fc96230, 0x125c24f0, 0x380a1a26, 0x11793f6f);
    NextStep(m, 74, 0x11793f6f, 0xedb42de4, 0xce616779, 0xf0667e31, 0x8fc96230, 0x01e02203, 0x5ee76897);
    NextStep(m, 75, 0x5ee76897, 0x11793f6f, 0x3b6d0b79, 0xce616779, 0xf0667e31, 0xe7cc3456, 0x63f7dab7);
    NextStep(m, 76, 0x63f7dab7, 0x5ee76897, 0xc45e4fdb, 0x3b6d0b79, 0xce616779, 0xe6e60b69, 0xa079b7d9);
    NextStep(m, 77, 0xa079b7d9, 0x63f7dab7, 0xd7b9da25, 0xc45e4fdb, 0x3b6d0b79, 0x00f60a00, 0x860d21cc);
    NextStep(m, 78, 0x860d21cc, 0xa079b7d9, 0xd8fdf6ad, 0xd7b9da25, 0xc45e4fdb, 0x5795ef4f, 0x5738d5e1);
    NextStep(m, 79, 0x5738d5e1, 0x860d21cc, 0x681e6df6, 0xd8fdf6ad, 0xd7b9da25, 0x822e0879, 0x42541b35);
  }

  lemma OneBlock<S>(tf: (S, seq<bv8>) -> S, start: S, m: seq<bv8>)
    requires |m| == 64
    ensures Fold(tf, start, m) == tf(start, m)
  {
    FoldNext(tf, start, [], m);
    assert [] + m == m;
  }

  lemma LengthOfAbc()
    ensures ByteAt(24, 0) == 0x18 && forall i :: 0 < i < 8 ==> ByteAt(24, i) == 0
  {
    assert Digit(24, 0) == 24 && Digit(24, 1) == Digit(24, 2) == Digit(24, 3) == Digit(24, 4) == 0;
    assert Digit(24, 5) == Digit(24, 6) == Digit(24, 7) == 0;
    hide Digit;
  }

  /** The bytes of "abc" with the bit, the zeros and the length behind it. */
  lemma AbcPadded()
    ensures var m := Sha1.Full(ABC);
            && |m| == 64 && m[..4] == ABC + [0x80] && (forall i :: 4 <= i < 63 ==> m[i] == 0) && m[63] == 0x18
    ensures var m := Md5.Full(ABC);
            && |m| == 64 && m[..4] == ABC + [0x80] && m[56] == 0x18 && forall i :: 4 <= i < 64 && i != 56 ==> m[i] == 0
  {
    LengthOfAbc();
    hide ByteAt;
    assert |ABC| == 3 && 8 * |ABC| == 24 && Padded(ABC) == ABC + [0x80] + seq(52, _ => 0 as bv8);
  }

  lemma FirstFour(m: seq<bv8>)
    requires |m| == 64 && m[..4] == ABC + [0x80]
    ensures m[0] == 0x61 && m[1] == 0x62 && m[2] == 0x63 && m[3] == 0x80
  {
    var four := ABC + [0x80];
    assert four == [0x61, 0x62, 0x63, 0x80];
    assert m[0] == four[0] && m[1] == four[1] && m[2] == four[2] && m[3] == four[3];
  }

  lemma BlockOfAbc(m: seq<bv8>)
    requires |m| == 64 && m[..4] == ABC + [0x80] && m[63] == 0x18
    requires forall i :: 4 <= i < 63 ==> m[i] == 0
    ensures AbcBlock(m)
  {
    hide Word;
    FirstFour(m);
    assert Sha1.BeWord(m, 0) == 0x61626380 && Sha1.BeWord(m, 15) == 0x18;
    forall t | 0 < t < 15
      ensures Sha1.BeWord(m, t) == 0
    {
    }
    hide Sha1.BeWord;
    FirstWord(m, 0);
    FirstWord(m, 1);
    FirstWord(m, 2);
    FirstWord(m, 3);
    FirstWord(m, 4);
    FirstWord(m, 5);
    FirstWord(m, 6);
    FirstWord(m, 7);
    FirstWord(m, 8);
    FirstWord(m, 9);
    FirstWord(m, 10);
    FirstWord(m, 11);
    FirstWord(m, 12);
    FirstWord(m, 13);
    FirstWord(m, 14);
    FirstWord(m, 15);
  }

  /** The bytes of a word, high byte first. */
  predicate Splits(w: bv32, b0: bv8, b1: bv8, b2: bv8, b3: bv8) {
    && (w >> 24) & 0xff == b0 as bv32 && (w >> 16) & 0xff == b1 as bv32
    && (w >> 8) & 0xff == b2 as bv32 && w & 0xff == b3 as bv32
  }

  lemma BytesIn(w: bv32, b0: bv8, b1: bv8, b2: bv8, b3: bv8)
    requires Splits(w, b0, b1, b2, b3)
    ensures Sha1.ByteIn(w, 0) == b0 && Sha1.ByteIn(w, 1) == b1 && Sha1.ByteIn(w, 2) == b2 && Sha1.ByteIn(w, 3) == b3
  {
  }

  lemma DigestBytes(r: Sha1.Regs, k: nat, w: bv32, b0: bv8, b1: bv8, b2: bv8, b3: bv8)
    requires k < 5 && r[k] == w && Splits(w, b0, b1, b2, b3)
    ensures Sha1.DigestByte(r, 4 * k) == b0 && Sha1.DigestByte(r, 4 * k + 1) == b1
    ensures Sha1.DigestByte(r, 4 * k + 2) == b2 && Sha1.DigestByte(r, 4 * k + 3) == b3
  {
    hide Splits, Sha1.ByteIn;
    BytesIn(w, b0, b1, b2, b3);
  }

  lemma RegistersOfAbc(m: seq<bv8>)
    requires |m| == 64 && AbcBlock(m)
    ensures Sha1.RfcBlock(Sha1.START, m) == [0xa9993e36, 0x4706816a, 0xba3e2571, 0x7850c26c, 0x9cd0d89d]
  {
    ScheduleOfAbc(m);
    hide Word, FirstWords, SecondWords, ThirdWords, FourthWords, AbcBlock, Sha1.Schedule;
    assert After(m, 0, 0x67452301, 0xefcdab89, 0x98badcfe, 0x10325476, 0xc3d2e1f0);
    hide After;
    FirstTwenty(m);
    SecondTwenty(m);
    ThirdTwenty(m);
    FourthTwenty(m);
    Sum(m, 0x42541b35, 0x5738d5e1, 0x21834873, 0x681e6df6, 0xd8fdf6ad);
  }

  lemma Sum(m: seq<bv8>, a: bv32, b: bv32, c: bv32, d: bv32, e: bv32)
    requires |m| == 64 && After(m, 80, a, b, c, d, e)
    ensures var s := Sha1.START;
            Sha1.RfcBlock(s, m) == [s[0] + a, s[1] + b, s[2] + c, s[3] + d, s[4] + e]
  {
    hide Sha1.Schedule, Sha1.RfcSteps;
  }

  lemma Sha1Bytes(r: Sha1.Regs, d: seq<bv8>)
    requires r == [0xa9993e36, 0x4706816a, 0xba3e2571, 0x7850c26c, 0x9cd0d89d] && |d| == 20
    requires forall i :: 0 <= i < 20 ==> d[i] == Sha1.DigestByte(r, i)
    ensures d[0..4] == [0xa9, 0x99, 0x3e, 0x36] && d[4..8] == [0x47, 0x06, 0x81, 0x6a]
    ensures d[8..12] == [0xba, 0x3e, 0x25, 0x71] && d[12..16] == [0x78, 0x50, 0xc2, 0x6c]
    ensures d[16..20] == [0x9c, 0xd0, 0xd8, 0x9d]
  {
    DigestBytes(r, 0, 0xa9993e36, 0xa9, 0x99, 0x3e, 0x36);
    DigestBytes(r, 1, 0x4706816a, 0x47, 0x06, 0x81, 0x6a);
    DigestBytes(r, 2, 0xba3e2571, 0xba, 0x3e, 0x25, 0x71);
    DigestBytes(r, 3, 0x7850c26c, 0x78, 0x50, 0xc2, 0x6c);
    DigestBytes(r, 4, 0x9cd0d89d, 0x9c, 0xd0, 0xd8, 0x9d);
    hide Sha1.DigestByte;
  }

  lemma FiveParts(d: seq<bv8>)
    requires |d| == 20
    ensures d == d[0..4] + d[4..8] + d[8..12] + d[12..16] + d[16..20]
  {
  }

  /** RFC 3174, section 7.3. */
  lemma Sha1OfAbc()
    ensures Sha1.Digest(ABC)
            == [0xa9, 0x99, 0x3e, 0x36] + [0x47, 0x06, 0x81, 0x6a] + [0xba, 0x3e, 0x25, 0x71]
              + [0x78, 0x50, 0xc2, 0x6c] + [0x9c, 0xd0, 0xd8, 0x9d]
  {
    var m := Sha1.Full(ABC);
    AbcPadded();
    BlockOfAbc(m);
    RegistersOfAbc(m);
    hide Sha1.Full, Sha1.RfcBlock, AbcBlock, Sha1.DigestByte, Fold;
    OneBlock(Sha1.Compress, Sha1.START, m);
    Sha1Bytes(Sha1.RfcBlock(Sha1.START, m), Sha1.Digest(ABC));
    FiveParts(Sha1.Digest(ABC));
  }

  // ---- MD5 ----

  /** The registers after t steps, the one to be changed next first. */
  ghost predicate Turned(x: Md5.Words, t: nat, a: bv32, b: bv32, c: bv32, d: bv32) {
    t <= 64 && Md5.Turned([a, b, c, d], Md5.RfcSteps(Md5.START, x, t), t)
  }

  /** Word k goes into step t, with shift s and constant v. */
  ghost predicate Uses(x: Md5.Words, t: nat, w: bv32, s: nat, v: bv32) {
    t < 64 && s <= 32 && x[Md5.WordIndex(t)] == w && Md5.RfcS(t) == s && Md5.T(t) == v
  }

  lemma NextTurn(x: Md5.Words, t: nat, a: bv32, b: bv32, c: bv32, d: bv32, w: bv32, s: nat, v: bv32, n: bv32)
    requires t < 64 && Turned(x, t, a, b, c, d) && Uses(x, t, w, s, v)
    requires n == Md5.Add(b, Md5.Rotl(Md5.Add(a, Md5.Add(Md5.Add(Md5.Round(t, b, c, d), w), v)), s))
    ensures Turned(x, t + 1, d, n, b, c)
  {
    hide Md5.Add, Md5.Rotl, Md5.Round, Md5.RfcK, Md5.RfcS, Md5.T, Md5.Turned, Md5.RfcStep, Md5.Mixed, Md5.WordIndex;
    Md5.WordsAgree(t);
    Md5.MixedIsRfc(t, [a, b, c, d], w);
    Md5.TurnedNext([a, b, c, d], Md5.RfcSteps(Md5.START, x, t), x, t);
  }

  ghost predicate AbcMd5Words(x: Md5.Words) {
    && x[0] == 0x80636261 && x[1] == 0 && x[2] == 0 && x[3] == 0 && x[4] == 0 && x[5] == 0 && x[6] == 0 && x[7] == 0
    && x[8] == 0 && x[9] == 0 && x[10] == 0 && x[11] == 0 && x[12] == 0 && x[13] == 0 && x[14] == 0x18 && x[15] == 0
  }

  ghost predicate OneUses(x: Md5.Words) {
    && Uses(x, 0, 0x80636261, 7, 0xd76aa478) && Uses(x, 1, 0x00000000, 12, 0xe8c7b756)
    && Uses(x, 2, 0x00000000, 17, 0x242070db) && Uses(x, 3, 0x00000000, 22, 0xc1bdceee)
    && Uses(x, 4, 0x00000000, 7, 0xf57c0faf) && Uses(x, 5, 0x00000000, 12, 0x4787c62a)
    && Uses(x, 6, 0x00000000, 17, 0xa8304613) && Uses(x, 7, 0x00000000, 22, 0xfd469501)
    && Uses(x, 8, 0x00000000, 7, 0x698098d8) && Uses(x, 9, 0x00000000, 12, 0x8b44f7af)
    && Uses(x, 10, 0x00000000, 17, 0xffff5bb1) && Uses(x, 11, 0x00000000, 22, 0x895cd7be)
    && Uses(x, 12, 0x00000000, 7, 0x6b901122) && Uses(x, 13, 0x00000000, 12, 0xfd987193)
    && Uses(x, 14, 0x00000018, 17, 0xa679438e) && Uses(x, 15, 0x00000000, 22, 0x49b40821)
  }

  lemma OneConstants(x: Md5.Words)
    requires AbcMd5Words(x)
    ensures OneUses(x)
  {
  }

  lemma RoundOne(x: Md5.Words)
    requires OneUses(x)
    requires Turned(x, 0, 0x67452301, 0xefcdab89, 0x98badcfe, 0x10325476)
    ensures Turned(x, 16, 0xdda9b9a6, 0x72aff2e0, 0xe396856b, 0xa1051895)
  {
    hide Turned, Uses;
    NextTurn(x, 0, 0x67452301, 0xefcdab89, 0x98badcfe, 0x10325476, 0x80636261, 7, 0xd76aa478, 0xd6d117b4);
    NextTurn(x, 1, 0x10325476, 0xd6d117b4, 0xefcdab89, 0x98badcfe, 0x00000000, 12, 0xe8c7b756, 0x344a8432);
    NextTurn(x, 2, 0x98badcfe, 0x344a8432, 0xd6d117b4, 0xefcdab89, 0x00000000, 17, 0x242070db, 0x2f6fbd72);
    NextTurn(x, 3, 0xefcdab89, 0x2f6fbd72, 0x344a8432, 0xd6d117b4, 0x00000000, 22, 0xc1bdceee, 0x7ad956f2);
    NextTurn(x, 4, 0xd6d117b4, 0x7ad956f2, 0x2f6fbd72, 0x344a8432, 0x00000000, 7, 0xf57c0faf, 0xc73741ef);
    NextTurn(x, 5, 0x344a8432, 0xc73741ef, 0x7ad956f2, 0x2f6fbd72, 0x00000000, 12, 0x4787c62a, 0x8bac3051);
    NextTurn(x, 6, 0x2f6fbd72, 0x8bac3051, 0xc73741ef, 0x7ad956f2, 0x00000000, 17, 0xa8304613, 0x207dc67b);
    NextTurn(x, 7, 0x7ad956f2, 0x207dc67b, 0x8bac3051, 0xc73741ef, 0x00000000, 22, 0xfd469501, 0x928d99f6);
    NextTurn(x, 8, 0xc73741ef, 0x928d99f6, 0x207dc67b, 0x8bac3051, 0x00000000, 7, 0x698098d8, 0x854b3712);
    NextTurn(x, 9, 0x8bac3051, 0x854b3712, 0x928d99f6, 0x207dc67b, 0x00000000, 12, 0x8b44f7af, 0x74e2f284);
    NextTurn(x, 10, 0x207dc67b, 0x74e2f284, 0x854b3712, 0x928d99f6, 0x00000000, 17, 0xffff5bb1, 0x3020401c);
    NextTurn(x, 11, 0x928d99f6, 0x3020401c, 0x74e2f284, 0x854b3712, 0x00000000, 22, 0x895cd7be, 0x5ed49596);
    NextTurn(x, 12, 0x854b3712, 0x5ed49596, 0x3020401c, 0x74e2f284, 0x00000000, 7, 0x6b901122, 0xdda9b9a6);
    NextTurn(x, 13, 0x74e2f284, 0xdda9b9a6, 0x5ed49596, 0x3020401c, 0x00000000, 12, 0xfd987193, 0xa1051895);
    NextTurn(x, 14, 0x3020401c, 0xa1051895, 0xdda9b9a6, 0x5ed49596, 0x00000018, 17, 0xa679438e, 0xe396856b);
    NextTurn(x, 15, 0x5ed49596, 0xe396856b, 0xa1051895, 0xdda9b9a6, 0x00000000, 22, 0x49b40821, 0x72aff2e0);
  }

  ghost predicate TwoUses(x: Md5.Words) {
    && Uses(x, 16, 0x00000000, 5, 0xf61e2562) && Uses(x, 17, 0x00000000, 9, 0xc040b340)
    && Uses(x, 18, 0x00000000, 14, 0x265e5a51) && Uses(x, 19, 0x80636261, 20, 0xe9b6c7aa)
    && Uses(x, 20, 0x00000000, 5, 0xd62f105d) && Uses(x, 21, 0x00000000, 9, 0x02441453)
    && Uses(x, 22, 0x00000000, 14, 0xd8a1e681) && Uses(x, 23, 0x00000000, 20, 0xe7d3fbc8)
    && Uses(x, 24, 0x00000000, 5, 0x21e1cde6) && Uses(x, 25, 0x00000018, 9, 0xc33707d6)
    && Uses(x, 26, 0x00000000, 14, 0xf4d50d87) && Uses(x, 27, 0x00000000, 20, 0x455a14ed)
    && Uses(x, 28, 0x00000000, 5, 0xa9e3e905) && Uses(x, 29, 0x00000000, 9, 0xfcefa3f8)
    && Uses(x, 30, 0x00000000, 14, 0x676f02d9) && Uses(x, 31, 0x00000000, 20, 0x8d2a4c8a)
  }

  lemma TwoConstants(x: Md5.Words)
    requires AbcMd5Words(x)
    ensures TwoUses(x)
  {
  }

  lemma RoundTwo(x: Md5.Words)
    requires TwoUses(x)
    requires Turned(x, 16, 0xdda9b9a6, 0x72aff2e0, 0xe396856b, 0xa1051895)
    ensures Turned(x, 32, 0x790a77fb, 0x726342d3, 0xa62884aa, 0x9f47e4f8)
  {
    hide Turned, Uses;
    NextTurn(x, 16, 0xdda9b9a6, 0x72aff2e0, 0xe396856b, 0xa1051895, 0x00000000, 5, 0xf61e2562, 0x3e9e9126);
    NextTurn(x, 17, 0xa1051895, 0x3e9e9126, 0x72aff2e0, 0xe396856b, 0x00000000, 9, 0xc040b340, 0x4a1d804e);
    NextTurn(x, 18, 0xe396856b, 0x4a1d804e, 0x3e9e9126, 0x72aff2e0, 0x00000000, 14, 0x265e5a51, 0xe25e1652);
    NextTurn(x, 19, 0x72aff2e0, 0xe25e1652, 0x4a1d804e, 0x3e9e9126, 0x80636261, 20, 0xe9b6c7aa, 0xb5b204e4);
    NextTurn(x, 20, 0x3e9e9126, 0xb5b204e4, 0xe25e1652, 0x4a1d804e, 0x00000000, 5, 0xd62f105d, 0x59a8ffda);
    NextTurn(x, 21, 0x4a1d804e, 0x59a8ffda, 0xb5b204e4, 0xe25e1652, 0x00000000, 9, 0x02441453, 0x6d002f1e);
    NextTurn(x, 22, 0xe25e1652, 0x6d002f1e, 0x59a8ffda, 0xb5b204e4, 0x00000000, 14, 0xd8a1e681, 0xabfc7920);
    NextTurn(x, 23, 0xb5b204e4, 0xabfc7920, 0x6d002f1e, 0x59a8ffda, 0x00000000, 20, 0xe7d3fbc8, 0x47092c07);
    NextTurn(x, 24, 0x59a8ffda, 0x47092c07, 0xabfc7920, 0x6d002f1e, 0x00000000, 5, 0x21e1cde6, 0xb7f268cf);
    NextTurn(x, 25, 0x6d002f1e, 0xb7f268cf, 0x47092c07, 0xabfc7920, 0x00000018, 9, 0xc33707d6, 0x09388eff);
    NextTurn(x, 26, 0xabfc7920, 0x09388eff, 0xb7f268cf, 0x47092c07, 0x00000000, 14, 0xf4d50d87, 0xfe1623b1);
    NextTurn(x, 27, 0x47092c07, 0xfe1623b1, 0x09388eff, 0xb7f268cf, 0x00000000, 20, 0x455a14ed, 0x786acb8f);
    NextTurn(x, 28, 0xb7f268cf, 0x786acb8f, 0xfe1623b1, 0x09388eff, 0x00000000, 5, 0xa9e3e905, 0x790a77fb);
    NextTurn(x, 29, 0x09388eff, 0x790a77fb, 0x786acb8f, 0xfe1623b1, 0x00000000, 9, 0xfcefa3f8, 0x9f47e4f8);
    NextTurn(x, 30, 0xfe1623b1, 0x9f47e4f8, 0x790a77fb, 0x786acb8f, 0x00000000, 14, 0x676f02d9, 0xa62884aa);
    NextTurn(x, 31, 0x786acb8f, 0xa62884aa, 0x9f47e4f8, 0x790a77fb, 0x00000000, 20, 0x8d2a4c8a, 0x726342d3);
  }

  ghost predicate ThreeUses(x: Md5.Words) {
    && Uses(x, 32, 0x00000000, 4, 0xfffa3942) && Uses(x, 33, 0x00000000, 11, 0x8771f681)
    && Uses(x, 34, 0x00000000, 16, 0x6d9d6122) && Uses(x, 35, 0x00000018, 23, 0xfde5380c)
    && Uses(x, 36, 0x00000000, 4, 0xa4beea44) && Uses(x, 37, 0x00000000, 11, 0x4bdecfa9)
    && Uses(x, 38, 0x00000000, 16, 0xf6bb4b60) && Uses(x, 39, 0x00000000, 23, 0xbebfbc70)
    && Uses(x, 40, 0x00000000, 4, 0x289b7ec6) && Uses(x, 41, 0x80636261, 11, 0xeaa127fa)
    && Uses(x, 42, 0x00000000, 16, 0xd4ef3085) && Uses(x, 43, 0x00000000, 23, 0x04881d05)
    && Uses(x, 44, 0x00000000, 4, 0xd9d4d039) && Uses(x, 45, 0x00000000, 11, 0xe6db99e5)
    && Uses(x, 46, 0x00000000, 16, 0x1fa27cf8) && Uses(x, 47, 0x00000000, 23, 0xc4ac5665)
  }

  lemma ThreeConstants(x: Md5.Words)
    requires AbcMd5Words(x)
    ensures ThreeUses(x)
  {
  }

  lemma RoundThree(x: Md5.Words)
    requires ThreeUses(x)
    requires Turned(x, 32, 0x790a77fb, 0x726342d3, 0xa62884aa, 0x9f47e4f8)
    ensures Turned(x, 48, 0x7f2e507b, 0x7beb9700, 0x8fae6399, 0x99d9679d)
  {
    hide Turned, Uses;
    NextTurn(x, 32, 0x790a77fb, 0x726342d3, 0xa62884aa, 0x9f47e4f8, 0x00000000, 4, 0xfffa3942, 0xb3707ebf);
    NextTurn(x, 33, 0x9f47e4f8, 0xb3707ebf, 0x726342d3, 0xa62884aa, 0x00000000, 11, 0x8771f681, 0x60127b2e);
    NextTurn(x, 34, 0xa62884aa, 0x60127b2e, 0xb3707ebf, 0x726342d3, 0x00000000, 16, 0x6d9d6122, 0x8d212ff5);
    NextTurn(x, 35, 0x726342d3, 0x8d212ff5, 0x60127b2e, 0xb3707ebf, 0x00000018, 23, 0xfde5380c, 0x3b0875c7);
    NextTurn(x, 36, 0xb3707ebf, 0x3b0875c7, 0x8d212ff5, 0x60127b2e, 0x00000000, 4, 0xa4beea44, 0x21b117b9);
    NextTurn(x, 37, 0x60127b2e, 0x21b117b9, 0x3b0875c7, 0x8d212ff5, 0x00000000, 11, 0x4bdecfa9, 0x6e7429d5);
    NextTurn(x, 38, 0x8d212ff5, 0x6e7429d5, 0x21b117b9, 0x3b0875c7, 0x00000000, 16, 0xf6bb4b60, 0x3575227e);
    NextTurn(x, 39, 0x3b0875c7, 0x3575227e, 0x6e7429d5, 0x21b117b9, 0x00000000, 23, 0xbebfbc70, 0x5a2f5ea5);
    NextTurn(x, 40, 0x21b117b9, 0x5a2f5ea5, 0x3575227e, 0x6e7429d5, 0x00000000, 4, 0x289b7ec6, 0x11de1779);
    NextTurn(x, 41, 0x6e7429d5, 0x11de1779, 0x5a2f5ea5, 0x3575227e, 0x80636261, 11, 0xeaa127fa, 0xfadcaa38);
    NextTurn(x, 42, 0x3575227e, 0xfadcaa38, 0x11de1779, 0x5a2f5ea5, 0x00000000, 16, 0xd4ef3085, 0x31c465ca);
    NextTurn(x, 43, 0x5a2f5ea5, 0x31c465ca, 0xfadcaa38, 0x11de1779, 0x00000000, 23, 0x04881d05, 0x4c6124f4);
    NextTurn(x, 44, 0x11de1779, 0x4c6124f4, 0x31c465ca, 0xfadcaa38, 0x00000000, 4, 0xd9d4d039, 0x7f2e507b);
    NextTurn(x, 45, 0xfadcaa38, 0x7f2e507b, 0x4c6124f4, 0x31c465ca, 0x00000000, 11, 0xe6db99e5, 0x99d9679d);
    NextTurn(x, 46, 0x31c465ca, 0x99d9679d, 0x7f2e507b, 0x4c6124f4, 0x00000000, 16, 0x1fa27cf8, 0x8fae6399);
    NextTurn(x, 47, 0x4c6124f4, 0x8fae6399, 0x99d9679d, 0x7f2e507b, 0x00000000, 23, 0xc4ac5665, 0x7beb9700);
  }

  ghost predicate FourUses(x: Md5.Words) {
    && Uses(x, 48, 0x80636261, 6, 0xf4292244) && Uses(x, 49, 0x00000000, 10, 0x432aff97)
    && Uses(x, 50, 0x00000018, 15, 0xab9423a7) && Uses(x, 51, 0x00000000, 21, 0xfc93a039)
    && Uses(x, 52, 0x00000000, 6, 0x655b59c3) && Uses(x, 53, 0x00000000, 10, 0x8f0ccc92)
    && Uses(x, 54, 0x00000000, 15, 0xffeff47d) && Uses(x, 55, 0x00000000, 21, 0x85845dd1)
    && Uses(x, 56, 0x00000000, 6, 0x6fa87e4f) && Uses(x, 57, 0x00000000, 10, 0xfe2ce6e0)
    && Uses(x, 58, 0x00000000, 15, 0xa3014314) && Uses(x, 59, 0x00000000, 21, 0x4e0811a1)
    && Uses(x, 60, 0x00000000, 6, 0xf7537e82) && Uses(x, 61, 0x00000000, 10, 0xbd3af235)
    && Uses(x, 62, 0x00000000, 15, 0x2ad7d2bb) && Uses(x, 63, 0x00000000, 21, 0xeb86d391)
  }

  lemma FourConstants(x: Md5.Words)
    requires AbcMd5Words(x)
    ensures FourUses(x)
  {
  }

  lemma RoundFour(x: Md5.Words)
    requires FourUses(x)
    requires Turned(x, 48, 0x7f2e507b, 0x7beb9700, 0x8fae6399, 0x99d9679d)
    ensures Turned(x, 64, 0x310ade8f, 0xc08226b3, 0xe484b9d8, 0x624d8cb2)
  {
    hide Turned, Uses;
    NextTurn(x, 48, 0x7f2e507b, 0x7beb9700, 0x8fae6399, 0x99d9679d, 0x80636261, 6, 0xf4292244, 0x7b201df8);
    NextTurn(x, 49, 0x99d9679d, 0x7b201df8, 0x7beb9700, 0x8fae6399, 0x00000000, 10, 0x432aff97, 0xf4e8e96e);
    NextTurn(x, 50, 0x8fae6399, 0xf4e8e96e, 0x7b201df8, 0x7beb9700, 0x00000018, 15, 0xab9423a7, 0xb298cefd);
    NextTurn(x, 51, 0x7beb9700, 0xb298cefd, 0xf4e8e96e, 0x7b201df8, 0x00000000, 21, 0xfc93a039, 0x8bf025c4);
    NextTurn(x, 52, 0x7b201df8, 0x8bf025c4, 0xb298cefd, 0xf4e8e96e, 0x00000000, 6, 0x655b59c3, 0x06cc5e8a);
    NextTurn(x, 53, 0xf4e8e96e, 0x06cc5e8a, 0x8bf025c4, 0xb298cefd, 0x00000000, 10, 0x8f0ccc92, 0x5b0d97aa);
    NextTurn(x, 54, 0xb298cefd, 0x5b0d97aa, 0x06cc5e8a, 0x8bf025c4, 0x00000000, 15, 0xffeff47d, 0x7d632dd0);
    NextTurn(x, 55, 0x8bf025c4, 0x7d632dd0, 0x5b0d97aa, 0x06cc5e8a, 0x00000000, 21, 0x85845dd1, 0x3bfa2c27);
    NextTurn(x, 56, 0x06cc5e8a, 0x3bfa2c27, 0x7d632dd0, 0x5b0d97aa, 0x00000000, 6, 0x6fa87e4f, 0x7f81cc35);
    NextTurn(x, 57, 0x5b0d97aa, 0x7f81cc35, 0x3bfa2c27, 0x7d632dd0, 0x00000000, 10, 0xfe2ce6e0, 0x094454ab);
    NextTurn(x, 58, 0x7d632dd0, 0x094454ab, 0x7f81cc35, 0x3bfa2c27, 0x00000000, 15, 0xa3014314, 0x4f9dbe3f);
    NextTurn(x, 59, 0x3bfa2c27, 0x4f9dbe3f, 0x094454ab, 0x7f81cc35, 0x00000000, 21, 0x4e0811a1, 0x7327d604);
    NextTurn(x, 60, 0x7f81cc35, 0x7327d604, 0x4f9dbe3f, 0x094454ab, 0x00000000, 6, 0xf7537e82, 0x310ade8f);
    NextTurn(x, 61, 0x094454ab, 0x310ade8f, 0x7327d604, 0x4f9dbe3f, 0x00000000, 10, 0xbd3af235, 0x624d8cb2);
    NextTurn(x, 62, 0x4f9dbe3f, 0x624d8cb2, 0x310ade8f, 0x7327d604, 0x00000000, 15, 0x2ad7d2bb, 0xe484b9d8);
    NextTurn(x, 63, 0x7327d604, 0xe484b9d8, 0x624d8cb2, 0x310ade8f, 0x00000000, 21, 0xeb86d391, 0xc08226b3);
  }

  lemma Md5WordsOfAbc(m: seq<bv8>)
    requires |m| == 64 && m[..4] == ABC + [0x80] && m[56] == 0x18
    requires forall i :: 4 <= i < 64 && i != 56 ==> m[i] == 0
    ensures AbcMd5Words(Md5.WordsOf(m))
  {
    FirstFour(m);
    assert Md5.LeWord(m, 0) == 0x80636261 && Md5.LeWord(m, 14) == 0x18;
    forall t | 0 < t < 16 && t != 14
      ensures Md5.LeWord(m, t) == 0
    {
    }
    hide Md5.LeWord;
  }

  lemma Md5RegistersOfAbc(x: Md5.Words)
    requires AbcMd5Words(x)
    ensures Md5.RfcBlock(Md5.START, x) == [0x98500190, 0xb04fd23c, 0x7d3f96d6, 0x727fe128]
  {
    assert Turned(x, 0, 0x67452301, 0xefcdab89, 0x98badcfe, 0x10325476);
    OneConstants(x);
    TwoConstants(x);
    ThreeConstants(x);
    FourConstants(x);
    hide AbcMd5Words, OneUses, TwoUses, ThreeUses, FourUses, Turned;
    RoundOne(x);
    RoundTwo(x);
    RoundThree(x);
    RoundFour(x);
    Md5Sum(x, 0x310ade8f, 0xc08226b3, 0xe484b9d8, 0x624d8cb2);
  }

  lemma Md5Sum(x: Md5.Words, a: bv32, b: bv32, c: bv32, d: bv32)
    requires Turned(x, 64, a, b, c, d)
    ensures var s := Md5.START;
            Md5.RfcBlock(s, x) == [Md5.Add(s[0], a), Md5.Add(s[1], b), Md5.Add(s[2], c), Md5.Add(s[3], d)]
  {
    Md5.TurnedBack([a, b, c, d], Md5.RfcSteps(Md5.START, x, 64));
    hide Md5.RfcSteps, Md5.Turned, Md5.Add;
  }

  lemma Md5Bytes()
    ensures Md5.WordBytes(0x98500190) == [0x90, 0x01, 0x50, 0x98]
    ensures Md5.WordBytes(0xb04fd23c) == [0x3c, 0xd2, 0x4f, 0xb0]
    ensures Md5.WordBytes(0x7d3f96d6) == [0xd6, 0x96, 0x3f, 0x7d]
    ensures Md5.WordBytes(0x727fe128) == [0x28, 0xe1, 0x7f, 0x72]
  {
  }

  /** RFC 1321, appendix A.5. */
  lemma Md5OfAbc()
    ensures Md5.Digest(ABC) == [0x90, 0x01, 0x50, 0x98] + [0x3c, 0xd2, 0x4f, 0xb0]
            + [0xd6, 0x96, 0x3f, 0x7d] + [0x28, 0xe1, 0x7f, 0x72]
  {
    var m := Md5.Full(ABC);
    AbcPadded();
    Md5WordsOfAbc(m);
    Md5RegistersOfAbc(Md5.WordsOf(m));
    Md5Bytes();
    hide Md5.Full, AbcMd5Words, Md5.WordsOf, Md5.RfcBlock, Md5.WordBytes, Fold;
    OneBlock(Md5.Compress, Md5.START, m);
  }
}
