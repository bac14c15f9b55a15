/**
 The examples of FIPS 197 worked out step by step: the cipher of appendix C.1 with its schedule, and the
 first words that the other two key lengths expand to, appendices A.2 and A.3. They tie the steps of the
 cipher, their order and the key schedule to the standard.
 */
module AesVectors {
  import opened AesTables
  import opened Fips197
  import opened Aes
  import AesContext

  /** Four words, first byte first. */
  function Quad(a: bv32, b: bv32, c: bv32, d: bv32): State { State(Unpack(a), Unpack(b), Unpack(c), Unpack(d)) }

  // ---- a key of 128 bits ----

  /** Round n of the schedule, and the state after it. */
  ghost predicate After(key: seq<Col>, s: State, n: nat, k: State, t: State) {
    |key| == 4 && n <= 10 && RoundKey(key, n) == k && Rounds(s, RoundKeys(key), n) == t
  }

  /** The words that the four words of a round key expand to. */
  predicate Expands(k: State, x: bv8, l: State) {
    && l.c0 == AddWords(k.c0, AddWords(SubWord(RotWord(k.c3)), Col(x, 0, 0, 0)))
    && l.c1 == AddWords(k.c1, l.c0) && l.c2 == AddWords(k.c2, l.c1) && l.c3 == AddWords(k.c3, l.c2)
  }

  lemma FirstRound(key: seq<Col>, s: State)
    requires |key| == 4
    ensures var k := State(key[0], key[1], key[2], key[3]); After(key, s, 0, k, AddRoundKey(s, k))
  {
    hide AddRoundKey;
  }

  lemma NextKey(key: seq<Col>, n: nat, k: State, x: bv8, l: State)
    requires |key| == 4 && 0 < n && RoundKey(key, n - 1) == k && PowerOfX(n - 1) == x && Expands(k, x, l)
    ensures RoundKey(key, n) == l
  {
    hide AddCol, SubCol, RotWord, PowerOfX;
    assert 4 * n % 4 == 0 && 4 * n / 4 == n;
  }

  lemma NextRound(key: seq<Col>, s: State, n: nat, k: State, x: bv8, l: State, t: State, u: State)
    requires 0 < n <= 10 && After(key, s, n - 1, k, t) && PowerOfX(n - 1) == x && Expands(k, x, l)
    requires AddRoundKey(MixColumns(ShiftRows(SubBytes(t))), l) == u
    ensures After(key, s, n, l, u)
  {
    hide AddRoundKey, MixColumns, ShiftRows, SubBytes, RoundKey, Expands, PowerOfX;
    NextKey(key, n, k, x, l);
    assert RoundKeys(key)[n] == l;
  }

  lemma LastRound(key: seq<Col>, s: State, k: State, x: bv8, l: State, t: State, u: State)
    requires After(key, s, 9, k, t) && PowerOfX(9) == x && Expands(k, x, l)
    requires AddRoundKey(ShiftRows(SubBytes(t)), l) == u
    ensures Cipher(s, RoundKeys(key)) == u
  {
    hide AddRoundKey, MixColumns, ShiftRows, SubBytes, RoundKey, Expands, PowerOfX;
    NextKey(key, 10, k, x, l);
    assert RoundKeys(key)[10] == l;
  }

  const CIPHER := Quad(0x69c4e0d8, 0x6a7b0430, 0xd8cdb780, 0x70b4c55a)
  const PLAIN := Quad(0x00112233, 0x44556677, 0x8899aabb, 0xccddeeff)

  lemma FirstRounds(key: seq<Col>, s: State)
    requires After(key, s, 0, Quad(0x00010203, 0x04050607, 0x08090a0b, 0x0c0d0e0f),
                   Quad(0x00102030, 0x40506070, 0x8090a0b0, 0xc0d0e0f0))
    ensures After(key, s, 3, Quad(0xb6ff744e, 0xd2c2c9bf, 0x6c590cbf, 0x0469bf41),
                  Quad(0xfa636a28, 0x25b339c9, 0x40668a31, 0x57244d17))
  {
    hide After;
    AesContext.PowersOfX();
    NextRound(key, s, 1, Quad(0x00010203, 0x04050607, 0x08090a0b, 0x0c0d0e0f), 0x01,
              Quad(0xd6aa74fd, 0xd2af72fa, 0xdaa678f1, 0xd6ab76fe),
              Quad(0x00102030, 0x40506070, 0x8090a0b0, 0xc0d0e0f0),
              Quad(0x89d810e8, 0x855ace68, 0x2d1843d8, 0xcb128fe4));
    NextRound(key, s, 2, Quad(0xd6aa74fd, 0xd2af72fa, 0xdaa678f1, 0xd6ab76fe), 0x02,
              Quad(0xb692cf0b, 0x643dbdf1, 0xbe9bc500, 0x6830b3fe),
              Quad(0x89d810e8, 0x855ace68, 0x2d1843d8, 0xcb128fe4),
              Quad(0x4915598f, 0x55e5d7a0, 0xdaca94fa, 0x1f0a63f7));
    NextRound(key, s, 3, Quad(0xb692cf0b, 0x643dbdf1, 0xbe9bc500, 0x6830b3fe), 0x04,
              Quad(0xb6ff744e, 0xd2c2c9bf, 0x6c590cbf, 0x0469bf41),
              Quad(0x4915598f, 0x55e5d7a0, 0xdaca94fa, 0x1f0a63f7),
              Quad(0xfa636a28, 0x25b339c9, 0x40668a31, 0x57244d17));
  }

  lemma SecondRounds(key: seq<Col>, s: State)
    requires After(key, s, 3, Quad(0xb6ff744e, 0xd2c2c9bf, 0x6c590cbf, 0x0469bf41),
                   Quad(0xfa636a28, 0x25b339c9, 0x40668a31, 0x57244d17))
    ensures After(key, s, 6, Quad(0x5e390f7d, 0xf7a69296, 0xa7553dc1, 0x0aa31f6b),
                  Quad(0xc62fe109, 0xf75eedc3, 0xcc79395d, 0x84f9cf5d))
  {
    hide After;
    AesContext.PowersOfX();
    NextRound(key, s, 4, Quad(0xb6ff744e, 0xd2c2c9bf, 0x6c590cbf, 0x0469bf41), 0x08,
              Quad(0x47f7f7bc, 0x95353e03, 0xf96c32bc, 0xfd058dfd),
              Quad(0xfa636a28, 0x25b339c9, 0x40668a31, 0x57244d17),
              Quad(0x24724023, 0x6966b3fa, 0x6ed27532, 0x88425b6c));
    NextRound(key, s, 5, Quad(0x47f7f7bc, 0x95353e03, 0xf96c32bc, 0xfd058dfd), 0x10,
              Quad(0x3caaa3e8, 0xa99f9deb, 0x50f3af57, 0xadf622aa),
              Quad(0x24724023, 0x6966b3fa, 0x6ed27532, 0x88425b6c),
              Quad(0xc81677bc, 0x9b7ac93b, 0x25027992, 0xb0261996));
    NextRound(key, s, 6, Quad(0x3caaa3e8, 0xa99f9deb, 0x50f3af57, 0xadf622aa), 0x20,
              Quad(0x5e390f7d, 0xf7a69296, 0xa7553dc1, 0x0aa31f6b),
              Quad(0xc81677bc, 0x9b7ac93b, 0x25027992, 0xb0261996),
              Quad(0xc62fe109, 0xf75eedc3, 0xcc79395d, 0x84f9cf5d));
  }

  lemma ThirdRounds(key: seq<Col>, s: State)
    requires After(key, s, 6, Quad(0x5e390f7d, 0xf7a69296, 0xa7553dc1, 0x0aa31f6b),
                   Quad(0xc62fe109, 0xf75eedc3, 0xcc79395d, 0x84f9cf5d))
    ensures After(key, s, 9, Quad(0x549932d1, 0xf0855768, 0x1093ed9c, 0xbe2c974e),
                  Quad(0xbd6e7c3d, 0xf2b5779e, 0x0b61216e, 0x8b10b689))
  {
    hide After;
    AesContext.PowersOfX();
    NextRound(key, s, 7, Quad(0x5e390f7d, 0xf7a69296, 0xa7553dc1, 0x0aa31f6b), 0x40,
              Quad(0x14f9701a, 0xe35fe28c, 0x440adf4d, 0x4ea9c026),
              Quad(0xc62fe109, 0xf75eedc3, 0xcc79395d, 0x84f9cf5d),
              Quad(0xd1876c0f, 0x79c4300a, 0xb45594ad, 0xd66ff41f));
    NextRound(key, s, 8, Quad(0x14f9701a, 0xe35fe28c, 0x440adf4d, 0x4ea9c026), 0x80,
              Quad(0x47438735, 0xa41c65b9, 0xe016baf4, 0xaebf7ad2),
              Quad(0xd1876c0f, 0x79c4300a, 0xb45594ad, 0xd66ff41f),
              Quad(0xfde3bad2, 0x05e5d0d7, 0x3547964e, 0xf1fe37f1));
    NextRound(key, s, 9, Quad(0x47438735, 0xa41c65b9, 0xe016baf4, 0xaebf7ad2), 0x1b,
              Quad(0x549932d1, 0xf0855768, 0x1093ed9c, 0xbe2c974e),
              Quad(0xfde3bad2, 0x05e5d0d7, 0x3547964e, 0xf1fe37f1),
              Quad(0xbd6e7c3d, 0xf2b5779e, 0x0b61216e, 0x8b10b689));
  }

  lemma ExampleRounds(key: seq<Col>)
    requires |key| == 4 && State(key[0], key[1], key[2], key[3]) == Quad(0x00010203, 0x04050607, 0x08090a0b, 0x0c0d0e0f)
    ensures Cipher(PLAIN, RoundKeys(key)) == CIPHER
  {
    hide After, Cipher, RoundKeys;
    FirstRound(key, PLAIN);
    FirstRounds(key, PLAIN);
    SecondRounds(key, PLAIN);
    ThirdRounds(key, PLAIN);
    AesContext.PowersOfX();
    LastRound(key, PLAIN, Quad(0x549932d1, 0xf0855768, 0x1093ed9c, 0xbe2c974e), 0x36,
              Quad(0x13111d7f, 0xe3944a17, 0xf307a78b, 0x4d2b30c5),
              Quad(0xbd6e7c3d, 0xf2b5779e, 0x0b61216e, 0x8b10b689), CIPHER);
  }

  const KEY: seq<bv8> :=
    [0x00, 0x01, 0x02, 0x03, 0x04, 0x05, 0x06, 0x07, 0x08, 0x09, 0x0a, 0x0b, 0x0c, 0x0d, 0x0e, 0x0f]
  const PLAIN_BLOCK: seq<bv8> :=
    [0x00, 0x11, 0x22, 0x33, 0x44, 0x55, 0x66, 0x77, 0x88, 0x99, 0xaa, 0xbb, 0xcc, 0xdd, 0xee, 0xff]
  const CIPHER_BLOCK: seq<bv8> :=
    [0x69, 0xc4, 0xe0, 0xd8, 0x6a, 0x7b, 0x04, 0x30, 0xd8, 0xcd, 0xb7, 0x80, 0x70, 0xb4, 0xc5, 0x5a]

  /** Appendix C.1. */
  lemma AppendixC1()
    ensures Cipher(BlockState(PLAIN_BLOCK), RoundKeys(AesContext.KeyCols(KEY))) == BlockState(CIPHER_BLOCK)
  {
    hide Cipher, RoundKeys;
    ExampleRounds(AesContext.KeyCols(KEY));
  }

  // ---- keys of 192 and 256 bits ----

  /** Appendix A.2, the first six new words. */
  lemma AppendixA2(key: seq<Col>)
    requires |key| == 6
    requires key[0] == Unpack(0x8e73b0f7) && key[1] == Unpack(0xda0e6452)
    requires key[2] == Unpack(0xc810f32b) && key[3] == Unpack(0x809079e5)
    requires key[4] == Unpack(0x62f8ead2) && key[5] == Unpack(0x522c6b7b)
    ensures ScheduleWord(key, 6) == Unpack(0xfe0c91f7) && ScheduleWord(key, 7) == Unpack(0x2402f5a5)
    ensures ScheduleWord(key, 8) == Unpack(0xec12068e) && ScheduleWord(key, 9) == Unpack(0x6c827f6b)
    ensures ScheduleWord(key, 10) == Unpack(0x0e7a95b9) && ScheduleWord(key, 11) == Unpack(0x5c56fec2)
  {
    AesContext.PowersOfX();
    assert ScheduleWord(key, 6) == Unpack(0xfe0c91f7);
    assert ScheduleWord(key, 7) == Unpack(0x2402f5a5);
    assert ScheduleWord(key, 8) == Unpack(0xec12068e);
    assert ScheduleWord(key, 9) == Unpack(0x6c827f6b);
    assert ScheduleWord(key, 10) == Unpack(0x0e7a95b9);
    assert ScheduleWord(key, 11) == Unpack(0x5c56fec2);
  }

  /** Appendix A.3, the first eight new words. */
  lemma AppendixA3(key: seq<Col>)
    requires |key| == 8
    requires key[0] == Unpack(0x603deb10) && key[1] == Unpack(0x15ca71be)
    requires key[2] == Unpack(0x2b73aef0) && key[3] == Unpack(0x857d7781)
    requires key[4] == Unpack(0x1f352c07) && key[5] == Unpack(0x3b6108d7)
    requires key[6] == Unpack(0x2d9810a3) && key[7] == Unpack(0x0914dff4)
    ensures ScheduleWord(key, 8) == Unpack(0x9ba35411) && ScheduleWord(key, 9) == Unpack(0x8e6925af)
    ensures ScheduleWord(key, 10) == Unpack(0xa51a8b5f) && ScheduleWord(key, 11) == Unpack(0x2067fcde)
    ensures ScheduleWord(key, 12) == Unpack(0xa8b09c1a) && ScheduleWord(key, 13) == Unpack(0x93d194cd)
    ensures ScheduleWord(key, 14) == Unpack(0xbe49846e) && ScheduleWord(key, 15) == Unpack(0xb75d5b9a)
  {
    AesContext.PowersOfX();
    assert ScheduleWord(key, 8) == Unpack(0x9ba35411);
    assert ScheduleWord(key, 9) == Unpack(0x8e6925af);
    assert ScheduleWord(key, 10) == Unpack(0xa51a8b5f);
    assert ScheduleWord(key, 11) == Unpack(0x2067fcde);
    assert ScheduleWord(key, 12) == Unpack(0xa8b09c1a);
    assert ScheduleWord(key, 13) == Unpack(0x93d194cd);
    assert ScheduleWord(key, 14) == Unpack(0xbe49846e);
    assert ScheduleWord(key, 15) == Unpack(0xb75d5b9a);
  }
}
