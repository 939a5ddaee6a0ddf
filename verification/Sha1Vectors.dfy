/** The known answers of FIPS 180-1 (appendices A and B): what the SHA-1 of this project computes for
"abc" and for the 56-byte message, down to the bytes. The lines of numbers are the schedules and the
register values the appendices list, round by round. */
module Sha1Vectors {
  import opened CText
  import opened Sha1

  // ----- rounds over any eighty words -----

  /** The first `t` rounds over the words `ws`. */
  function RoundsOver(h: State, ws: seq<Word>, t: nat): State
    requires t <= |ws|
  {
    if t == 0 then h else Round(RoundsOver(h, ws, t - 1), t - 1, ws[t - 1])
  }

  lemma {:induction false} RoundsAreOver(h: State, block: seq<Byte>, t: nat)
    requires |block| == 64 && t <= 80
    ensures RoundsOver(h, Schedule(block, 80), t) == Rounds(h, block, t)
  {
    if t > 0 {
      RoundsAreOver(h, block, t - 1);
      ScheduleGrows(block, t, 80);
      assert Schedule(block, 80)[t - 1] == Schedule(block, 80)[..t][t - 1];
    }
  }

  predicate MixedAt(ws: seq<Word>, t: nat) {
    16 <= t < |ws| && ws[t] == Mix(ws[t - 3], ws[t - 8], ws[t - 14], ws[t - 16])
  }

  /** The words past the sixteenth are mixed from earlier ones. */
  predicate Expanded(ws: seq<Word>) {
    |ws| == 80 && forall t: nat :: 16 <= t < 80 ==> MixedAt(ws, t)
  }

  lemma Mixed(ws: seq<Word>, t: nat, w3: Word, w8: Word, w14: Word, w16: Word, w: Word)
    requires Expanded(ws) && 16 <= t < 80 && Mix(w3, w8, w14, w16) == w
    requires ws[t - 3] == w3 && ws[t - 8] == w8 && ws[t - 14] == w14 && ws[t - 16] == w16
    ensures ws[t] == w
  {
    assert MixedAt(ws, t);
  }

  predicate Four(ws: seq<Word>, t: nat, w0: Word, w1: Word, w2: Word, w3: Word) {
    t + 4 <= |ws| && ws[t] == w0 && ws[t + 1] == w1 && ws[t + 2] == w2 && ws[t + 3] == w3
  }

  lemma WordInSchedule(block: seq<Byte>, t: nat)
    requires |block| == 64 && t < 80
    ensures Schedule(block, 80)[t] == Schedule(block, t + 1)[t]
  {
    ScheduleGrows(block, t + 1, 80);
    assert Schedule(block, 80)[t] == Schedule(block, 80)[..t + 1][t];
  }

  lemma EarlierWord(block: seq<Byte>, t: nat, k: nat)
    requires |block| == 64 && k < t <= 80
    ensures Schedule(block, t)[k] == Schedule(block, 80)[k]
  {
    ScheduleGrows(block, t, 80);
    assert Schedule(block, 80)[..t][k] == Schedule(block, 80)[k];
  }

  lemma ScheduleMixes(block: seq<Byte>, t: nat)
    requires |block| == 64 && 16 <= t < 80
    ensures MixedAt(Schedule(block, 80), t)
  {
    WordInSchedule(block, t);
    EarlierWord(block, t, t - 3);
    EarlierWord(block, t, t - 8);
    EarlierWord(block, t, t - 14);
    EarlierWord(block, t, t - 16);
  }

  lemma ScheduleIsExpanded(block: seq<Byte>)
    requires |block| == 64
    ensures Expanded(Schedule(block, 80))
  {
    forall t: nat | 16 <= t < 80
      ensures MixedAt(Schedule(block, 80), t)
    {
      ScheduleMixes(block, t);
    }
  }

  lemma CompressIs(h: State, block: seq<Byte>, last: State, sum: State)
    requires |block| == 64 && Rounds(h, block, 80) == last && Added(h, last) == sum
    ensures Compress(h, block) == sum
  {
  }

  lemma FirstWord(block: seq<Byte>, t: nat, w: Word)
    requires |block| == 64 && t < 16 && WordAt(block, t) == w
    ensures Schedule(block, 80)[t] == w
  {
    WordInSchedule(block, t);
  }

  lemma WordIs(block: seq<Byte>, i: nat, b0: Byte, b1: Byte, b2: Byte, b3: Byte, w: Word)
    requires |block| == 64 && i < 16 && FourBytes(b0, b1, b2, b3) == w
    requires block[4 * i] == b0 && block[4 * i + 1] == b1 && block[4 * i + 2] == b2 && block[4 * i + 3] == b3
    ensures WordAt(block, i) == w
  {
  }

  /** A word of the schedule from four bytes of the block. */
  lemma FirstIs(block: seq<Byte>, i: nat, b0: Byte, b1: Byte, b2: Byte, b3: Byte, w: Word)
    requires |block| == 64 && i < 16 && FourBytes(b0, b1, b2, b3) == w
    requires block[4 * i] == b0 && block[4 * i + 1] == b1 && block[4 * i + 2] == b2 && block[4 * i + 3] == b3
    ensures Schedule(block, 80)[i] == w
  {
    WordIs(block, i, b0, b1, b2, b3, w);
    FirstWord(block, i, w);
  }

  lemma Turn(h: State, ws: seq<Word>, t: nat, a: Word, b: Word, c: Word, d: Word, e: Word, f: Word, r: Word, n: Word)
    requires t < |ws| && RoundsOver(h, ws, t) == State(a, b, c, d, e)
    requires F(t, b, c, d) == f && Rol(b, 30) == r && Temp(a, f, e, K(t), ws[t]) == n
    ensures RoundsOver(h, ws, t + 1) == State(n, a, r, c, d)
  {
  }

  // ----- appendix A: "abc" -----

  lemma AbcSchedule16(ws: seq<Word>)
    requires Expanded(ws)
    requires Four(ws, 0, 0x61626380, 0x00000000, 0x00000000, 0x00000000)
    requires Four(ws, 4, 0x00000000, 0x00000000, 0x00000000, 0x00000000)
    requires Four(ws, 8, 0x00000000, 0x00000000, 0x00000000, 0x00000000)
    requires Four(ws, 12, 0x00000000, 0x00000000, 0x00000000, 0x00000018)
    ensures Four(ws, 16, 0xC2C4C700, 0x00000000, 0x00000030, 0x85898E01)
    ensures Four(ws, 20, 0x00000000, 0x00000060, 0x0B131C03, 0x00000030)
    ensures Four(ws, 24, 0x85898EC1, 0x16263806, 0x00000000, 0x00000180)
    ensures Four(ws, 28, 0x2C4C700C, 0x000000F0, 0x93AFB507, 0x5898E048)
    ensures Four(ws, 32, 0x8E9A9202, 0x00000600, 0xB131C0F0, 0x16263BC6)
    ensures Four(ws, 36, 0x4EBED41E, 0x626380A1, 0x16263806, 0x000018C0)
    ensures Four(ws, 40, 0xD2E138C4, 0x00000F00, 0x3AFB5079, 0x898E04E5)
    ensures Four(ws, 44, 0xE2BA3C2B, 0x000060C0, 0x053A37CD, 0x74458547)
  {
    Mixed(ws, 16, 0x00000000, 0x00000000, 0x00000000, 0x61626380, 0xC2C4C700);
    Mixed(ws, 17, 0x00000000, 0x00000000, 0x00000000, 0x00000000, 0x00000000);
    Mixed(ws, 18, 0x00000018, 0x00000000, 0x00000000, 0x00000000, 0x00000030);
    Mixed(ws, 19, 0xC2C4C700, 0x00000000, 0x00000000, 0x00000000, 0x85898E01);
    Mixed(ws, 20, 0x00000000, 0x00000000, 0x00000000, 0x00000000, 0x00000000);
    Mixed(ws, 21, 0x00000030, 0x00000000, 0x00000000, 0x00000000, 0x00000060);
    Mixed(ws, 22, 0x85898E01, 0x00000000, 0x00000000, 0x00000000, 0x0B131C03);
    Mixed(ws, 23, 0x00000000, 0x00000018, 0x00000000, 0x00000000, 0x00000030);
    Mixed(ws, 24, 0x00000060, 0xC2C4C700, 0x00000000, 0x00000000, 0x85898EC1);
    Mixed(ws, 25, 0x0B131C03, 0x00000000, 0x00000000, 0x00000000, 0x16263806);
    Mixed(ws, 26, 0x00000030, 0x00000030, 0x00000000, 0x00000000, 0x00000000);
    Mixed(ws, 27, 0x85898EC1, 0x85898E01, 0x00000000, 0x00000000, 0x00000180);
    Mixed(ws, 28, 0x16263806, 0x00000000, 0x00000000, 0x00000000, 0x2C4C700C);
    Mixed(ws, 29, 0x00000000, 0x00000060, 0x00000018, 0x00000000, 0x000000F0);
    Mixed(ws, 30, 0x00000180, 0x0B131C03, 0xC2C4C700, 0x00000000, 0x93AFB507);
    Mixed(ws, 31, 0x2C4C700C, 0x00000030, 0x00000000, 0x00000018, 0x5898E048);
    Mixed(ws, 32, 0x000000F0, 0x85898EC1, 0x00000030, 0xC2C4C700, 0x8E9A9202);
    Mixed(ws, 33, 0x93AFB507, 0x16263806, 0x85898E01, 0x00000000, 0x00000600);
    Mixed(ws, 34, 0x5898E048, 0x00000000, 0x00000000, 0x00000030, 0xB131C0F0);
    Mixed(ws, 35, 0x8E9A9202, 0x00000180, 0x00000060, 0x85898E01, 0x16263BC6);
    Mixed(ws, 36, 0x00000600, 0x2C4C700C, 0x0B131C03, 0x00000000, 0x4EBED41E);
    Mixed(ws, 37, 0xB131C0F0, 0x000000F0, 0x00000030, 0x00000060, 0x626380A1);
    Mixed(ws, 38, 0x16263BC6, 0x93AFB507, 0x85898EC1, 0x0B131C03, 0x16263806);
    Mixed(ws, 39, 0x4EBED41E, 0x5898E048, 0x16263806, 0x00000030, 0x000018C0);
    Mixed(ws, 40, 0x626380A1, 0x8E9A9202, 0x00000000, 0x85898EC1, 0xD2E138C4);
    Mixed(ws, 41, 0x16263806, 0x00000600, 0x00000180, 0x16263806, 0x00000F00);
    Mixed(ws, 42, 0x000018C0, 0xB131C0F0, 0x2C4C700C, 0x00000000, 0x3AFB5079);
    Mixed(ws, 43, 0xD2E138C4, 0x16263BC6, 0x000000F0, 0x00000180, 0x898E04E5);
    Mixed(ws, 44, 0x00000F00, 0x4EBED41E, 0x93AFB507, 0x2C4C700C, 0xE2BA3C2B);
    Mixed(ws, 45, 0x3AFB5079, 0x626380A1, 0x5898E048, 0x000000F0, 0x000060C0);
    Mixed(ws, 46, 0x898E04E5, 0x16263806, 0x8E9A9202, 0x93AFB507, 0x053A37CD);
    Mixed(ws, 47, 0xE2BA3C2B, 0x000018C0, 0x00000600, 0x5898E048, 0x74458547);
  }

  lemma AbcSchedule48(ws: seq<Word>)
    requires Expanded(ws)
    requires Four(ws, 32, 0x8E9A9202, 0x00000600, 0xB131C0F0, 0x16263BC6)
    requires Four(ws, 36, 0x4EBED41E, 0x626380A1, 0x16263806, 0x000018C0)
    requires Four(ws, 40, 0xD2E138C4, 0x00000F00, 0x3AFB5079, 0x898E04E5)
    requires Four(ws, 44, 0xE2BA3C2B, 0x000060C0, 0x053A37CD, 0x74458547)
    ensures Four(ws, 48, 0xDA9415ED, 0x26380A16, 0x626383A1, 0x4EBF54DE)
    ensures Four(ws, 52, 0x3835B44B, 0x0000F600, 0x1E84C7A3, 0x98E04D98)
    ensures Four(ws, 56, 0x651D16A0, 0x62658CA1, 0x458544D6, 0x44584CB7)
    ensures Four(ws, 60, 0x7BA06619, 0x6380AEA2, 0x0AE55269, 0x627B49A1)
    ensures Four(ws, 64, 0x7CD45C9D, 0x000F0000, 0xFB50753A, 0xEC6765E8)
    ensures Four(ws, 68, 0xBA3C2BE2, 0x0060C000, 0x3A37CD05, 0x458546F4)
    ensures Four(ws, 72, 0xB8599DD6, 0x380A1A26, 0x01E02203, 0xE7CC3456)
    ensures Four(ws, 76, 0xE6E60B69, 0x00F60A00, 0x5795EF4F, 0x822E0879)
  {
    Mixed(ws, 48, 0x000060C0, 0xD2E138C4, 0xB131C0F0, 0x8E9A9202, 0xDA9415ED);
    Mixed(ws, 49, 0x053A37CD, 0x00000F00, 0x16263BC6, 0x00000600, 0x26380A16);
    Mixed(ws, 50, 0x74458547, 0x3AFB5079, 0x4EBED41E, 0xB131C0F0, 0x626383A1);
    Mixed(ws, 51, 0xDA9415ED, 0x898E04E5, 0x626380A1, 0x16263BC6, 0x4EBF54DE);
    Mixed(ws, 52, 0x26380A16, 0xE2BA3C2B, 0x16263806, 0x4EBED41E, 0x3835B44B);
    Mixed(ws, 53, 0x626383A1, 0x000060C0, 0x000018C0, 0x626380A1, 0x0000F600);
    Mixed(ws, 54, 0x4EBF54DE, 0x053A37CD, 0xD2E138C4, 0x16263806, 0x1E84C7A3);
    Mixed(ws, 55, 0x3835B44B, 0x74458547, 0x00000F00, 0x000018C0, 0x98E04D98);
    Mixed(ws, 56, 0x0000F600, 0xDA9415ED, 0x3AFB5079, 0xD2E138C4, 0x651D16A0);
    Mixed(ws, 57, 0x1E84C7A3, 0x26380A16, 0x898E04E5, 0x00000F00, 0x62658CA1);
    Mixed(ws, 58, 0x98E04D98, 0x626383A1, 0xE2BA3C2B, 0x3AFB5079, 0x458544D6);
    Mixed(ws, 59, 0x651D16A0, 0x4EBF54DE, 0x000060C0, 0x898E04E5, 0x44584CB7);
    Mixed(ws, 60, 0x62658CA1, 0x3835B44B, 0x053A37CD, 0xE2BA3C2B, 0x7BA06619);
    Mixed(ws, 61, 0x458544D6, 0x0000F600, 0x74458547, 0x000060C0, 0x6380AEA2);
    Mixed(ws, 62, 0x44584CB7, 0x1E84C7A3, 0xDA9415ED, 0x053A37CD, 0x0AE55269);
    Mixed(ws, 63, 0x7BA06619, 0x98E04D98, 0x26380A16, 0x74458547, 0x627B49A1);
    Mixed(ws, 64, 0x6380AEA2, 0x651D16A0, 0x626383A1, 0xDA9415ED, 0x7CD45C9D);
    Mixed(ws, 65, 0x0AE55269, 0x62658CA1, 0x4EBF54DE, 0x26380A16, 0x000F0000);
    Mixed(ws, 66, 0x627B49A1, 0x458544D6, 0x3835B44B, 0x626383A1, 0xFB50753A);
    Mixed(ws, 67, 0x7CD45C9D, 0x44584CB7, 0x0000F600, 0x4EBF54DE, 0xEC6765E8);
    Mixed(ws, 68, 0x000F0000, 0x7BA06619, 0x1E84C7A3, 0x3835B44B, 0xBA3C2BE2);
    Mixed(ws, 69, 0xFB50753A, 0x6380AEA2, 0x98E04D98, 0x0000F600, 0x0060C000);
    Mixed(ws, 70, 0xEC6765E8, 0x0AE55269, 0x651D16A0, 0x1E84C7A3, 0x3A37CD05);
    Mixed(ws, 71, 0xBA3C2BE2, 0x627B49A1, 0x62658CA1, 0x98E04D98, 0x458546F4);
    Mixed(ws, 72, 0x0060C000, 0x7CD45C9D, 0x458544D6, 0x651D16A0, 0xB8599DD6);
    Mixed(ws, 73, 0x3A37CD05, 0x000F0000, 0x44584CB7, 0x62658CA1, 0x380A1A26);
    Mixed(ws, 74, 0x458546F4, 0xFB50753A, 0x7BA06619, 0x458544D6, 0x01E02203);
    Mixed(ws, 75, 0xB8599DD6, 0xEC6765E8, 0x6380AEA2, 0x44584CB7, 0xE7CC3456);
    Mixed(ws, 76, 0x380A1A26, 0xBA3C2BE2, 0x0AE55269, 0x7BA06619, 0xE6E60B69);
    Mixed(ws, 77, 0x01E02203, 0x0060C000, 0x627B49A1, 0x6380AEA2, 0x00F60A00);
    Mixed(ws, 78, 0xE7CC3456, 0x3A37CD05, 0x7CD45C9D, 0x0AE55269, 0x5795EF4F);
    Mixed(ws, 79, 0xE6E60B69, 0x458546F4, 0x000F0000, 0x627B49A1, 0x822E0879);
  }

  lemma AbcRounds0(h: State, ws: seq<Word>)
    requires |ws| == 80 && RoundsOver(h, ws, 0) == State(0x67452301, 0xEFCDAB89, 0x98BADCFE, 0x10325476, 0xC3D2E1F0)
    requires Four(ws, 0, 0x61626380, 0x00000000, 0x00000000, 0x00000000)
    requires Four(ws, 4, 0x00000000, 0x00000000, 0x00000000, 0x00000000)
    requires Four(ws, 8, 0x00000000, 0x00000000, 0x00000000, 0x00000000)
    requires Four(ws, 12, 0x00000000, 0x00000000, 0x00000000, 0x00000018)
    requires Four(ws, 16, 0xC2C4C700, 0x00000000, 0x00000030, 0x85898E01)
    ensures RoundsOver(h, ws, 20) == State(0xFD9E1D7D, 0xDC64901D, 0x20AA99CA, 0xD3A49608, 0xC82F758B)
  {
    Turn(h, ws, 0, 0x67452301, 0xEFCDAB89, 0x98BADCFE, 0x10325476, 0xC3D2E1F0, 0x98BADCFE, 0x7BF36AE2, 0x0116FC33);
    Turn(h, ws, 1, 0x0116FC33, 0x67452301, 0x7BF36AE2, 0x98BADCFE, 0x10325476, 0xFBFBFEFE, 0x59D148C0, 0x8990536D);
    Turn(h, ws, 2, 0x8990536D, 0x0116FC33, 0x59D148C0, 0x7BF36AE2, 0x98BADCFE, 0x7BF14AC0, 0xC045BF0C, 0xA1390F08);
    Turn(h, ws, 3, 0xA1390F08, 0x8990536D, 0xC045BF0C, 0x59D148C0, 0x7BF36AE2, 0xD0411B8C, 0x626414DB, 0xCDD8E11B);
    Turn(h, ws, 4, 0xCDD8E11B, 0xA1390F08, 0x626414DB, 0xC045BF0C, 0x59D148C0, 0x6064B40C, 0x284E43C2, 0xCFD499DE);
    Turn(h, ws, 5, 0xCFD499DE, 0xCDD8E11B, 0x284E43C2, 0x626414DB, 0xC045BF0C, 0x2A6C55C2, 0xF3763846, 0x3FC7CA40);
    Turn(h, ws, 6, 0x3FC7CA40, 0xCFD499DE, 0xF3763846, 0x284E43C2, 0x626414DB, 0xE35E5A46, 0xB3F52677, 0x993E30C1);
    Turn(h, ws, 7, 0x993E30C1, 0x3FC7CA40, 0xB3F52677, 0xF3763846, 0x284E43C2, 0xF3F53246, 0x0FF1F290, 0x9E8C07D4);
    Turn(h, ws, 8, 0x9E8C07D4, 0x993E30C1, 0x0FF1F290, 0xB3F52677, 0xF3763846, 0x2BF136B6, 0x664F8C30, 0x4B6AE328);
    Turn(h, ws, 9, 0x4B6AE328, 0x9E8C07D4, 0x664F8C30, 0x0FF1F290, 0xB3F52677, 0x077DF410, 0x27A301F5, 0x8351F929);
    Turn(h, ws, 10, 0x8351F929, 0x4B6AE328, 0x27A301F5, 0x664F8C30, 0x0FF1F290, 0x27270D30, 0x12DAB8CA, 0xFBDA9E89);
    Turn(h, ws, 11, 0xFBDA9E89, 0x8351F929, 0x12DAB8CA, 0x27A301F5, 0x664F8C30, 0x26F2B8DC, 0x60D47E4A, 0x63188FE4);
    Turn(h, ws, 12, 0x63188FE4, 0xFBDA9E89, 0x60D47E4A, 0x12DAB8CA, 0x27A301F5, 0x60D03E4A, 0x7EF6A7A2, 0x4607B664);
    Turn(h, ws, 13, 0x4607B664, 0x63188FE4, 0x7EF6A7A2, 0x60D47E4A, 0x12DAB8CA, 0x62D4F7AA, 0x18C623F9, 0x9128F695);
    Turn(h, ws, 14, 0x9128F695, 0x4607B664, 0x18C623F9, 0x7EF6A7A2, 0x60D47E4A, 0x38F623E2, 0x1181ED99, 0x196BEE77);
    Turn(h, ws, 15, 0x196BEE77, 0x9128F695, 0x1181ED99, 0x18C623F9, 0x7EF6A7A2, 0x19C6E5F9, 0x644A3DA5, 0x20BDD62F);
    Turn(h, ws, 16, 0x20BDD62F, 0x196BEE77, 0x644A3DA5, 0x1181ED99, 0x18C623F9, 0x00CA2DAD, 0xC65AFB9D, 0x4E925823);
    Turn(h, ws, 17, 0x4E925823, 0x20BDD62F, 0xC65AFB9D, 0x644A3DA5, 0x1181ED99, 0x445AFB8D, 0xC82F758B, 0x82AA6728);
    Turn(h, ws, 18, 0x82AA6728, 0x4E925823, 0xC82F758B, 0xC65AFB9D, 0x644A3DA5, 0xC84AF39F, 0xD3A49608, 0xDC64901D);
    Turn(h, ws, 19, 0xDC64901D, 0x82AA6728, 0xD3A49608, 0xC82F758B, 0xC65AFB9D, 0xCAA5168B, 0x20AA99CA, 0xFD9E1D7D);
  }

  lemma AbcRounds20(h: State, ws: seq<Word>)
    requires |ws| == 80 && RoundsOver(h, ws, 20) == State(0xFD9E1D7D, 0xDC64901D, 0x20AA99CA, 0xD3A49608, 0xC82F758B)
    requires Four(ws, 20, 0x00000000, 0x00000060, 0x0B131C03, 0x00000030)
    requires Four(ws, 24, 0x85898EC1, 0x16263806, 0x00000000, 0x00000180)
    requires Four(ws, 28, 0x2C4C700C, 0x000000F0, 0x93AFB507, 0x5898E048)
    requires Four(ws, 32, 0x8E9A9202, 0x00000600, 0xB131C0F0, 0x16263BC6)
    requires Four(ws, 36, 0x4EBED41E, 0x626380A1, 0x16263806, 0x000018C0)
    ensures RoundsOver(h, ws, 40) == State(0x32DE1CBA, 0x4C986405, 0xF718E5CF, 0x03D447F6, 0xF72EEC32)
  {
    Turn(h, ws, 20, 0xFD9E1D7D, 0xDC64901D, 0x20AA99CA, 0xD3A49608, 0xC82F758B, 0x2F6A9FDF, 0x77192407, 0x1A37B0CA);
    Turn(h, ws, 21, 0x1A37B0CA, 0xFD9E1D7D, 0x77192407, 0x20AA99CA, 0xD3A49608, 0xAA2DA0B0, 0x7F67875F, 0x33A23BFC);
    Turn(h, ws, 22, 0x33A23BFC, 0x1A37B0CA, 0x7F67875F, 0x77192407, 0x20AA99CA, 0x12491392, 0x868DEC32, 0x21283486);
    Turn(h, ws, 23, 0x21283486, 0x33A23BFC, 0x868DEC32, 0x7F67875F, 0x77192407, 0xCA485091, 0x0CE88EFF, 0xD541F12D);
    Turn(h, ws, 24, 0xD541F12D, 0x21283486, 0x0CE88EFF, 0x868DEC32, 0x7F67875F, 0xAB4D564B, 0x884A0D21, 0xC7567DC6);
    Turn(h, ws, 25, 0xC7567DC6, 0xD541F12D, 0x884A0D21, 0x0CE88EFF, 0x868DEC32, 0x51E372F3, 0x75507C4B, 0x48413BA4);
    Turn(h, ws, 26, 0x48413BA4, 0xC7567DC6, 0x75507C4B, 0x884A0D21, 0x0CE88EFF, 0x3A4C0CAC, 0xB1D59F71, 0xBE35FBD5);
    Turn(h, ws, 27, 0xBE35FBD5, 0x48413BA4, 0xB1D59F71, 0x75507C4B, 0x884A0D21, 0x8CC4D89E, 0x12104EE9, 0x4AA84D97);
    Turn(h, ws, 28, 0x4AA84D97, 0xBE35FBD5, 0x12104EE9, 0xB1D59F71, 0x75507C4B, 0x1DF02A4D, 0x6F8D7EF5, 0x8370B52E);
    Turn(h, ws, 29, 0x8370B52E, 0x4AA84D97, 0x6F8D7EF5, 0x12104EE9, 0xB1D59F71, 0x37357D8B, 0xD2AA1365, 0xC5FBAF5D);
    Turn(h, ws, 30, 0xC5FBAF5D, 0x8370B52E, 0xD2AA1365, 0x6F8D7EF5, 0x12104EE9, 0x3E57D8BE, 0xA0DC2D4B, 0x1267B407);
    Turn(h, ws, 31, 0x1267B407, 0xC5FBAF5D, 0xA0DC2D4B, 0xD2AA1365, 0x6F8D7EF5, 0xB78D9173, 0x717EEBD7, 0x3B845D33);
    Turn(h, ws, 32, 0x3B845D33, 0x1267B407, 0x717EEBD7, 0xA0DC2D4B, 0xD2AA1365, 0xC3C5729B, 0xC499ED01, 0x046FAA0A);
    Turn(h, ws, 33, 0x046FAA0A, 0x3B845D33, 0xC499ED01, 0x717EEBD7, 0xA0DC2D4B, 0x8E635BE5, 0xCEE1174C, 0x2C0EBC11);
    Turn(h, ws, 34, 0x2C0EBC11, 0x046FAA0A, 0xCEE1174C, 0xC499ED01, 0x717EEBD7, 0x0E175047, 0x811BEA82, 0x21796AD4);
    Turn(h, ws, 35, 0x21796AD4, 0x2C0EBC11, 0x811BEA82, 0xCEE1174C, 0xC499ED01, 0x63F441DF, 0x4B03AF04, 0xDCBBB0CB);
    Turn(h, ws, 36, 0xDCBBB0CB, 0x21796AD4, 0x4B03AF04, 0x811BEA82, 0xCEE1174C, 0xEB612F52, 0x085E5AB5, 0x0F511FD8);
    Turn(h, ws, 37, 0x0F511FD8, 0xDCBBB0CB, 0x085E5AB5, 0x4B03AF04, 0x811BEA82, 0x9FE6457A, 0xF72EEC32, 0xDC63973F);
    Turn(h, ws, 38, 0xDC63973F, 0x0F511FD8, 0xF72EEC32, 0x085E5AB5, 0x4B03AF04, 0xF021A95F, 0x03D447F6, 0x4C986405);
    Turn(h, ws, 39, 0x4C986405, 0xDC63973F, 0x03D447F6, 0xF72EEC32, 0x085E5AB5, 0x28993CFB, 0xF718E5CF, 0x32DE1CBA);
  }

  lemma AbcRounds40(h: State, ws: seq<Word>)
    requires |ws| == 80 && RoundsOver(h, ws, 40) == State(0x32DE1CBA, 0x4C986405, 0xF718E5CF, 0x03D447F6, 0xF72EEC32)
    requires Four(ws, 40, 0xD2E138C4, 0x00000F00, 0x3AFB5079, 0x898E04E5)
    requires Four(ws, 44, 0xE2BA3C2B, 0x000060C0, 0x053A37CD, 0x74458547)
    requires Four(ws, 48, 0xDA9415ED, 0x26380A16, 0x626383A1, 0x4EBF54DE)
    requires Four(ws, 52, 0x3835B44B, 0x0000F600, 0x1E84C7A3, 0x98E04D98)
    requires Four(ws, 56, 0x651D16A0, 0x62658CA1, 0x458544D6, 0x44584CB7)
    ensures RoundsOver(h, ws, 60) == State(0x3F52DE5A, 0x09D785FD, 0x3498BFD4, 0xF211824F, 0xD79915AB)
  {
    Turn(h, ws, 40, 0x32DE1CBA, 0x4C986405, 0xF718E5CF, 0x03D447F6, 0xF72EEC32, 0x479865C7, 0x53261901, 0xFC87DEDF);
    Turn(h, ws, 41, 0xFC87DEDF, 0x32DE1CBA, 0x53261901, 0xF718E5CF, 0x03D447F6, 0x731E1D8B, 0x8CB7872E, 0x970A0D5C);
    Turn(h, ws, 42, 0x970A0D5C, 0xFC87DEDF, 0x8CB7872E, 0x53261901, 0xF718E5CF, 0xDCA79F0F, 0xFF21F7B7, 0x7F193DC5);
    Turn(h, ws, 43, 0x7F193DC5, 0x970A0D5C, 0xFF21F7B7, 0x8CB7872E, 0x53261901, 0x9F23873E, 0x25C28357, 0xEE1B1AAF);
    Turn(h, ws, 44, 0xEE1B1AAF, 0x7F193DC5, 0x25C28357, 0xFF21F7B7, 0x8CB7872E, 0x7F01B7D7, 0x5FC64F71, 0x40F28E09);
    Turn(h, ws, 45, 0x40F28E09, 0xEE1B1AAF, 0x5FC64F71, 0x25C28357, 0xFF21F7B7, 0x6FC20B77, 0xFB86C6AB, 0x1C51E1F2);
    Turn(h, ws, 46, 0x1C51E1F2, 0x40F28E09, 0xFB86C6AB, 0x5FC64F71, 0x25C28357, 0x5BC6CE29, 0x503CA382, 0xA01B846C);
    Turn(h, ws, 47, 0xA01B846C, 0x1C51E1F2, 0x503CA382, 0xFB86C6AB, 0x5FC64F71, 0x5814E3A2, 0x8714787C, 0xBEAD02CA);
    Turn(h, ws, 48, 0xBEAD02CA, 0xA01B846C, 0x8714787C, 0x503CA382, 0xFB86C6AB, 0x801CA06C, 0x2806E11B, 0xBAF39337);
    Turn(h, ws, 49, 0xBAF39337, 0xBEAD02CA, 0x2806E11B, 0x8714787C, 0x503CA382, 0xAE04605A, 0xAFAB40B2, 0x120731C5);
    Turn(h, ws, 50, 0x120731C5, 0xBAF39337, 0xAFAB40B2, 0x2806E11B, 0x8714787C, 0xAAA3C133, 0xEEBCE4CD, 0x641DB2CE);
    Turn(h, ws, 51, 0x641DB2CE, 0x120731C5, 0xEEBCE4CD, 0xAFAB40B2, 0x2806E11B, 0xAEAF60C5, 0x4481CC71, 0x3847AD66);
    Turn(h, ws, 52, 0x3847AD66, 0x641DB2CE, 0x4481CC71, 0xEEBCE4CD, 0xAFAB40B2, 0x649DE4CD, 0x99076CB3, 0xE490436D);
    Turn(h, ws, 53, 0xE490436D, 0x3847AD66, 0x99076CB3, 0x4481CC71, 0xEEBCE4CD, 0x1807EC73, 0x8E11EB59, 0x27E9F1D8);
    Turn(h, ws, 54, 0x27E9F1D8, 0xE490436D, 0x8E11EB59, 0x99076CB3, 0x4481CC71, 0x8C116B79, 0x792410DB, 0x7B71F76D);
    Turn(h, ws, 55, 0x7B71F76D, 0x27E9F1D8, 0x792410DB, 0x8E11EB59, 0x99076CB3, 0x2F21F1D9, 0x09FA7C76, 0x5E6456AF);
    Turn(h, ws, 56, 0x5E6456AF, 0x7B71F76D, 0x09FA7C76, 0x792410DB, 0x8E11EB59, 0x7970747F, 0x5EDC7DDB, 0xC846093F);
    Turn(h, ws, 57, 0xC846093F, 0x5E6456AF, 0x5EDC7DDB, 0x09FA7C76, 0x792410DB, 0x5EFC7CFF, 0xD79915AB, 0xD262FF50);
    Turn(h, ws, 58, 0xD262FF50, 0xC846093F, 0xD79915AB, 0x5EDC7DDB, 0x09FA7C76, 0xDEDC1DBB, 0xF211824F, 0x09D785FD);
    Turn(h, ws, 59, 0x09D785FD, 0xD262FF50, 0xF211824F, 0xD79915AB, 0x5EDC7DDB, 0xD211974B, 0x3498BFD4, 0x3F52DE5A);
  }

  lemma AbcRounds60(h: State, ws: seq<Word>)
    requires |ws| == 80 && RoundsOver(h, ws, 60) == State(0x3F52DE5A, 0x09D785FD, 0x3498BFD4, 0xF211824F, 0xD79915AB)
    requires Four(ws, 60, 0x7BA06619, 0x6380AEA2, 0x0AE55269, 0x627B49A1)
    requires Four(ws, 64, 0x7CD45C9D, 0x000F0000, 0xFB50753A, 0xEC6765E8)
    requires Four(ws, 68, 0xBA3C2BE2, 0x0060C000, 0x3A37CD05, 0x458546F4)
    requires Four(ws, 72, 0xB8599DD6, 0x380A1A26, 0x01E02203, 0xE7CC3456)
    requires Four(ws, 76, 0xE6E60B69, 0x00F60A00, 0x5795EF4F, 0x822E0879)
    ensures RoundsOver(h, ws, 80) == State(0x42541B35, 0x5738D5E1, 0x21834873, 0x681E6DF6, 0xD8FDF6AD)
  {
    Turn(h, ws, 60, 0x3F52DE5A, 0x09D785FD, 0x3498BFD4, 0xF211824F, 0xD79915AB, 0xCF5EB866, 0x4275E17F, 0xD756C147);
    Turn(h, ws, 61, 0xD756C147, 0x3F52DE5A, 0x4275E17F, 0x3498BFD4, 0xF211824F, 0x49BF80F1, 0x8FD4B796, 0x548C9CB2);
    Turn(h, ws, 62, 0x548C9CB2, 0xD756C147, 0x8FD4B796, 0x4275E17F, 0x3498BFD4, 0x1AF797AE, 0xF5D5B051, 0xB66C020B);
    Turn(h, ws, 63, 0xB66C020B, 0x548C9CB2, 0xF5D5B051, 0x8FD4B796, 0x4275E17F, 0x2E8D9B75, 0x9523272C, 0x6B61C9E1);
    Turn(h, ws, 64, 0x6B61C9E1, 0xB66C020B, 0x9523272C, 0xF5D5B051, 0x8FD4B796, 0xD69A9576, 0xED9B0082, 0x19DFA7AC);
    Turn(h, ws, 65, 0x19DFA7AC, 0x6B61C9E1, 0xED9B0082, 0x9523272C, 0xF5D5B051, 0x13D9EE4F, 0x5AD87278, 0x101655F9);
    Turn(h, ws, 66, 0x101655F9, 0x19DFA7AC, 0x5AD87278, 0xED9B0082, 0x9523272C, 0xAE9CD556, 0x0677E9EB, 0x0C3DF2B4);
    Turn(h, ws, 67, 0x0C3DF2B4, 0x101655F9, 0x0677E9EB, 0x5AD87278, 0xED9B0082, 0x4CB9CE6A, 0x4405957E, 0x78DD4D2B);
    Turn(h, ws, 68, 0x78DD4D2B, 0x0C3DF2B4, 0x4405957E, 0x0677E9EB, 0x5AD87278, 0x4E4F8E21, 0x030F7CAD, 0x497093C0);
    Turn(h, ws, 69, 0x497093C0, 0x78DD4D2B, 0x030F7CAD, 0x4405957E, 0x0677E9EB, 0x3FD7A4F8, 0xDE37534A, 0x3F2588C2);
    Turn(h, ws, 70, 0x3F2588C2, 0x497093C0, 0xDE37534A, 0x030F7CAD, 0x4405957E, 0x9448BC27, 0x125C24F0, 0xC199F8C7);
    Turn(h, ws, 71, 0xC199F8C7, 0x3F2588C2, 0x125C24F0, 0xDE37534A, 0x030F7CAD, 0xF34EFF78, 0x8FC96230, 0x39859DE7);
    Turn(h, ws, 72, 0x39859DE7, 0xC199F8C7, 0x8FC96230, 0x125C24F0, 0xDE37534A, 0x5C0CBE07, 0xF0667E31, 0xEDB42DE4);
    Turn(h, ws, 73, 0xEDB42DE4, 0x39859DE7, 0xF0667E31, 0x8FC96230, 0x125C24F0, 0x462A81E6, 0xCE616779, 0x11793F6F);
    Turn(h, ws, 74, 0x11793F6F, 0xEDB42DE4, 0xCE616779, 0xF0667E31, 0x8FC96230, 0xD3B334AC, 0x3B6D0B79, 0x5EE76897);
    Turn(h, ws, 75, 0x5EE76897, 0x11793F6F, 0x3B6D0B79, 0xCE616779, 0xF0667E31, 0xE475536F, 0xC45E4FDB, 0x63F7DAB7);
    Turn(h, ws, 76, 0x63F7DAB7, 0x5EE76897, 0xC45E4FDB, 0x3B6D0B79, 0xCE616779, 0xA1D42C35, 0xD7B9DA25, 0xA079B7D9);
    Turn(h, ws, 77, 0xA079B7D9, 0x63F7DAB7, 0xD7B9DA25, 0xC45E4FDB, 0x3B6D0B79, 0x70104F49, 0xD8FDF6AD, 0x860D21CC);
    Turn(h, ws, 78, 0x860D21CC, 0xA079B7D9, 0xD8FDF6AD, 0xD7B9DA25, 0xC45E4FDB, 0xAF3D9B51, 0x681E6DF6, 0x5738D5E1);
    Turn(h, ws, 79, 0x5738D5E1, 0x860D21CC, 0x681E6DF6, 0xD8FDF6AD, 0xD7B9DA25, 0x36EEBA97, 0x21834873, 0x42541B35);
  }

  lemma AbcRounds(h: State, ws: seq<Word>)
    requires Expanded(ws) && h == State(0x67452301, 0xEFCDAB89, 0x98BADCFE, 0x10325476, 0xC3D2E1F0)
    requires Four(ws, 0, 0x61626380, 0x00000000, 0x00000000, 0x00000000)
    requires Four(ws, 4, 0x00000000, 0x00000000, 0x00000000, 0x00000000)
    requires Four(ws, 8, 0x00000000, 0x00000000, 0x00000000, 0x00000000)
    requires Four(ws, 12, 0x00000000, 0x00000000, 0x00000000, 0x00000018)
    ensures RoundsOver(h, ws, 80) == State(0x42541B35, 0x5738D5E1, 0x21834873, 0x681E6DF6, 0xD8FDF6AD)
  {
    AbcSchedule16(ws);
    AbcSchedule48(ws);
    AbcRounds0(h, ws);
    AbcRounds20(h, ws);
    AbcRounds40(h, ws);
    AbcRounds60(h, ws);
  }

  lemma AbcAdds()
    ensures Added(State(0x67452301, 0xEFCDAB89, 0x98BADCFE, 0x10325476, 0xC3D2E1F0),
                  State(0x42541B35, 0x5738D5E1, 0x21834873, 0x681E6DF6, 0xD8FDF6AD)) ==
            State(0xA9993E36, 0x4706816A, 0xBA3E2571, 0x7850C26C, 0x9CD0D89D)
  {
    assert Add(0x67452301, 0x42541B35) == 0xA9993E36;
    assert Add(0xEFCDAB89, 0x5738D5E1) == 0x4706816A;
    assert Add(0x98BADCFE, 0x21834873) == 0xBA3E2571;
    assert Add(0x10325476, 0x681E6DF6) == 0x7850C26C;
    assert Add(0xC3D2E1F0, 0xD8FDF6AD) == 0x9CD0D89D;
  }

  // ----- appendix B, first block -----

  lemma FirstSchedule16(ws: seq<Word>)
    requires Expanded(ws)
    requires Four(ws, 0, 0x61626364, 0x62636465, 0x63646566, 0x64656667)
    requires Four(ws, 4, 0x65666768, 0x66676869, 0x6768696A, 0x68696A6B)
    requires Four(ws, 8, 0x696A6B6C, 0x6A6B6C6D, 0x6B6C6D6E, 0x6C6D6E6F)
    requires Four(ws, 12, 0x6D6E6F70, 0x6E6F7071, 0x80000000, 0x00000000)
    ensures Four(ws, 16, 0x0A063A3E, 0xD8DADCDF, 0xDADCDEC0, 0xC8D2B4BE)
    ensures Four(ws, 20, 0x6F757B5B, 0x757B5967, 0x8DA16D70, 0xDAEEFABA)
    ensures Four(ws, 24, 0xFAF6CAB6, 0xA6FB675A, 0x0C604CC8, 0x604CC02C)
    ensures Four(ws, 28, 0x49C0E6E2, 0x2EE8CBBC, 0xCFD72EC4, 0x97E9810E)
    ensures Four(ws, 32, 0x0989CBE8, 0xF24843FE, 0x5C40D0BA, 0xA8D9CC3B)
    ensures Four(ws, 36, 0xB2B9666E, 0xBA7B71B7, 0x20B28A72, 0xB28AF500)
    ensures Four(ws, 40, 0x8AC87842, 0x289ADDF4, 0x56D51F21, 0xD96B7FD2)
    ensures Four(ws, 44, 0x3868E778, 0xAB5E4848, 0x7F0E2118, 0xDE87A111)
  {
    Mixed(ws, 16, 0x6E6F7071, 0x696A6B6C, 0x63646566, 0x61626364, 0x0A063A3E);
    Mixed(ws, 17, 0x80000000, 0x6A6B6C6D, 0x64656667, 0x62636465, 0xD8DADCDF);
    Mixed(ws, 18, 0x00000000, 0x6B6C6D6E, 0x65666768, 0x63646566, 0xDADCDEC0);
    Mixed(ws, 19, 0x0A063A3E, 0x6C6D6E6F, 0x66676869, 0x64656667, 0xC8D2B4BE);
    Mixed(ws, 20, 0xD8DADCDF, 0x6D6E6F70, 0x6768696A, 0x65666768, 0x6F757B5B);
    Mixed(ws, 21, 0xDADCDEC0, 0x6E6F7071, 0x68696A6B, 0x66676869, 0x757B5967);
    Mixed(ws, 22, 0xC8D2B4BE, 0x80000000, 0x696A6B6C, 0x6768696A, 0x8DA16D70);
    Mixed(ws, 23, 0x6F757B5B, 0x00000000, 0x6A6B6C6D, 0x68696A6B, 0xDAEEFABA);
    Mixed(ws, 24, 0x757B5967, 0x0A063A3E, 0x6B6C6D6E, 0x696A6B6C, 0xFAF6CAB6);
    Mixed(ws, 25, 0x8DA16D70, 0xD8DADCDF, 0x6C6D6E6F, 0x6A6B6C6D, 0xA6FB675A);
    Mixed(ws, 26, 0xDAEEFABA, 0xDADCDEC0, 0x6D6E6F70, 0x6B6C6D6E, 0x0C604CC8);
    Mixed(ws, 27, 0xFAF6CAB6, 0xC8D2B4BE, 0x6E6F7071, 0x6C6D6E6F, 0x604CC02C);
    Mixed(ws, 28, 0xA6FB675A, 0x6F757B5B, 0x80000000, 0x6D6E6F70, 0x49C0E6E2);
    Mixed(ws, 29, 0x0C604CC8, 0x757B5967, 0x00000000, 0x6E6F7071, 0x2EE8CBBC);
    Mixed(ws, 30, 0x604CC02C, 0x8DA16D70, 0x0A063A3E, 0x80000000, 0xCFD72EC4);
    Mixed(ws, 31, 0x49C0E6E2, 0xDAEEFABA, 0xD8DADCDF, 0x00000000, 0x97E9810E);
    Mixed(ws, 32, 0x2EE8CBBC, 0xFAF6CAB6, 0xDADCDEC0, 0x0A063A3E, 0x0989CBE8);
    Mixed(ws, 33, 0xCFD72EC4, 0xA6FB675A, 0xC8D2B4BE, 0xD8DADCDF, 0xF24843FE);
    Mixed(ws, 34, 0x97E9810E, 0x0C604CC8, 0x6F757B5B, 0xDADCDEC0, 0x5C40D0BA);
    Mixed(ws, 35, 0x0989CBE8, 0x604CC02C, 0x757B5967, 0xC8D2B4BE, 0xA8D9CC3B);
    Mixed(ws, 36, 0xF24843FE, 0x49C0E6E2, 0x8DA16D70, 0x6F757B5B, 0xB2B9666E);
    Mixed(ws, 37, 0x5C40D0BA, 0x2EE8CBBC, 0xDAEEFABA, 0x757B5967, 0xBA7B71B7);
    Mixed(ws, 38, 0xA8D9CC3B, 0xCFD72EC4, 0xFAF6CAB6, 0x8DA16D70, 0x20B28A72);
    Mixed(ws, 39, 0xB2B9666E, 0x97E9810E, 0xA6FB675A, 0xDAEEFABA, 0xB28AF500);
    Mixed(ws, 40, 0xBA7B71B7, 0x0989CBE8, 0x0C604CC8, 0xFAF6CAB6, 0x8AC87842);
    Mixed(ws, 41, 0x20B28A72, 0xF24843FE, 0x604CC02C, 0xA6FB675A, 0x289ADDF4);
    Mixed(ws, 42, 0xB28AF500, 0x5C40D0BA, 0x49C0E6E2, 0x0C604CC8, 0x56D51F21);
    Mixed(ws, 43, 0x8AC87842, 0xA8D9CC3B, 0x2EE8CBBC, 0x604CC02C, 0xD96B7FD2);
    Mixed(ws, 44, 0x289ADDF4, 0xB2B9666E, 0xCFD72EC4, 0x49C0E6E2, 0x3868E778);
    Mixed(ws, 45, 0x56D51F21, 0xBA7B71B7, 0x97E9810E, 0x2EE8CBBC, 0xAB5E4848);
    Mixed(ws, 46, 0xD96B7FD2, 0x20B28A72, 0x0989CBE8, 0xCFD72EC4, 0x7F0E2118);
    Mixed(ws, 47, 0x3868E778, 0xB28AF500, 0xF24843FE, 0x97E9810E, 0xDE87A111);
  }

  lemma FirstSchedule48(ws: seq<Word>)
    requires Expanded(ws)
    requires Four(ws, 32, 0x0989CBE8, 0xF24843FE, 0x5C40D0BA, 0xA8D9CC3B)
    requires Four(ws, 36, 0xB2B9666E, 0xBA7B71B7, 0x20B28A72, 0xB28AF500)
    requires Four(ws, 40, 0x8AC87842, 0x289ADDF4, 0x56D51F21, 0xD96B7FD2)
    requires Four(ws, 44, 0x3868E778, 0xAB5E4848, 0x7F0E2118, 0xDE87A111)
    ensures Four(ws, 48, 0xE8BE56B0, 0x1A0AE652, 0xCD5611C8, 0x46EF29DC)
    ensures Four(ws, 52, 0x60D3DA6D, 0xDDF3BA6E, 0x2737F5E9, 0x4888A710)
    ensures Four(ws, 56, 0xD2A1177B, 0x9999633B, 0xD6C69D03, 0xCCF6127B)
    ensures Four(ws, 60, 0x7C58FE6D, 0xFDD99C68, 0xF8E32074, 0xE0BA3C7D)
    ensures Four(ws, 64, 0x152198D6, 0x7B3F1982, 0x37F2D5B7, 0x8596323E)
    ensures Four(ws, 68, 0x810790D6, 0xBEA0A942, 0x11C7E1B1, 0x6158D101)
    ensures Four(ws, 72, 0x5FCD77D9, 0x7F2F12E6, 0xF868CFB1, 0xD6E997E9)
    ensures Four(ws, 76, 0xF526B852, 0xB7578DCC, 0x55D99DF4, 0x1FF69958)
  {
    Mixed(ws, 48, 0xAB5E4848, 0x8AC87842, 0x5C40D0BA, 0x0989CBE8, 0xE8BE56B0);
    Mixed(ws, 49, 0x7F0E2118, 0x289ADDF4, 0xA8D9CC3B, 0xF24843FE, 0x1A0AE652);
    Mixed(ws, 50, 0xDE87A111, 0x56D51F21, 0xB2B9666E, 0x5C40D0BA, 0xCD5611C8);
    Mixed(ws, 51, 0xE8BE56B0, 0xD96B7FD2, 0xBA7B71B7, 0xA8D9CC3B, 0x46EF29DC);
    Mixed(ws, 52, 0x1A0AE652, 0x3868E778, 0x20B28A72, 0xB2B9666E, 0x60D3DA6D);
    Mixed(ws, 53, 0xCD5611C8, 0xAB5E4848, 0xB28AF500, 0xBA7B71B7, 0xDDF3BA6E);
    Mixed(ws, 54, 0x46EF29DC, 0x7F0E2118, 0x8AC87842, 0x20B28A72, 0x2737F5E9);
    Mixed(ws, 55, 0x60D3DA6D, 0xDE87A111, 0x289ADDF4, 0xB28AF500, 0x4888A710);
    Mixed(ws, 56, 0xDDF3BA6E, 0xE8BE56B0, 0x56D51F21, 0x8AC87842, 0xD2A1177B);
    Mixed(ws, 57, 0x2737F5E9, 0x1A0AE652, 0xD96B7FD2, 0x289ADDF4, 0x9999633B);
    Mixed(ws, 58, 0x4888A710, 0xCD5611C8, 0x3868E778, 0x56D51F21, 0xD6C69D03);
    Mixed(ws, 59, 0xD2A1177B, 0x46EF29DC, 0xAB5E4848, 0xD96B7FD2, 0xCCF6127B);
    Mixed(ws, 60, 0x9999633B, 0x60D3DA6D, 0x7F0E2118, 0x3868E778, 0x7C58FE6D);
    Mixed(ws, 61, 0xD6C69D03, 0xDDF3BA6E, 0xDE87A111, 0xAB5E4848, 0xFDD99C68);
    Mixed(ws, 62, 0xCCF6127B, 0x2737F5E9, 0xE8BE56B0, 0x7F0E2118, 0xF8E32074);
    Mixed(ws, 63, 0x7C58FE6D, 0x4888A710, 0x1A0AE652, 0xDE87A111, 0xE0BA3C7D);
    Mixed(ws, 64, 0xFDD99C68, 0xD2A1177B, 0xCD5611C8, 0xE8BE56B0, 0x152198D6);
    Mixed(ws, 65, 0xF8E32074, 0x9999633B, 0x46EF29DC, 0x1A0AE652, 0x7B3F1982);
    Mixed(ws, 66, 0xE0BA3C7D, 0xD6C69D03, 0x60D3DA6D, 0xCD5611C8, 0x37F2D5B7);
    Mixed(ws, 67, 0x152198D6, 0xCCF6127B, 0xDDF3BA6E, 0x46EF29DC, 0x8596323E);
    Mixed(ws, 68, 0x7B3F1982, 0x7C58FE6D, 0x2737F5E9, 0x60D3DA6D, 0x810790D6);
    Mixed(ws, 69, 0x37F2D5B7, 0xFDD99C68, 0x4888A710, 0xDDF3BA6E, 0xBEA0A942);
    Mixed(ws, 70, 0x8596323E, 0xF8E32074, 0xD2A1177B, 0x2737F5E9, 0x11C7E1B1);
    Mixed(ws, 71, 0x810790D6, 0xE0BA3C7D, 0x9999633B, 0x4888A710, 0x6158D101);
    Mixed(ws, 72, 0xBEA0A942, 0x152198D6, 0xD6C69D03, 0xD2A1177B, 0x5FCD77D9);
    Mixed(ws, 73, 0x11C7E1B1, 0x7B3F1982, 0xCCF6127B, 0x9999633B, 0x7F2F12E6);
    Mixed(ws, 74, 0x6158D101, 0x37F2D5B7, 0x7C58FE6D, 0xD6C69D03, 0xF868CFB1);
    Mixed(ws, 75, 0x5FCD77D9, 0x8596323E, 0xFDD99C68, 0xCCF6127B, 0xD6E997E9);
    Mixed(ws, 76, 0x7F2F12E6, 0x810790D6, 0xF8E32074, 0x7C58FE6D, 0xF526B852);
    Mixed(ws, 77, 0xF868CFB1, 0xBEA0A942, 0xE0BA3C7D, 0xFDD99C68, 0xB7578DCC);
    Mixed(ws, 78, 0xD6E997E9, 0x11C7E1B1, 0x152198D6, 0xF8E32074, 0x55D99DF4);
    Mixed(ws, 79, 0xF526B852, 0x6158D101, 0x7B3F1982, 0xE0BA3C7D, 0x1FF69958);
  }

  lemma FirstRounds0(h: State, ws: seq<Word>)
    requires |ws| == 80 && RoundsOver(h, ws, 0) == State(0x67452301, 0xEFCDAB89, 0x98BADCFE, 0x10325476, 0xC3D2E1F0)
    requires Four(ws, 0, 0x61626364, 0x62636465, 0x63646566, 0x64656667)
    requires Four(ws, 4, 0x65666768, 0x66676869, 0x6768696A, 0x68696A6B)
    requires Four(ws, 8, 0x696A6B6C, 0x6A6B6C6D, 0x6B6C6D6E, 0x6C6D6E6F)
    requires Four(ws, 12, 0x6D6E6F70, 0x6E6F7071, 0x80000000, 0x00000000)
    requires Four(ws, 16, 0x0A063A3E, 0xD8DADCDF, 0xDADCDEC0, 0xC8D2B4BE)
    ensures RoundsOver(h, ws, 20) == State(0x6C445652, 0x944B1BD1, 0x509AE70D, 0x1AC1A012, 0x5098DF8E)
  {
    Turn(h, ws, 0, 0x67452301, 0xEFCDAB89, 0x98BADCFE, 0x10325476, 0xC3D2E1F0, 0x98BADCFE, 0x7BF36AE2, 0x0116FC17);
    Turn(h, ws, 1, 0x0116FC17, 0x67452301, 0x7BF36AE2, 0x98BADCFE, 0x10325476, 0xFBFBFEFE, 0x59D148C0, 0xEBF3B452);
    Turn(h, ws, 2, 0xEBF3B452, 0x0116FC17, 0x59D148C0, 0x7BF36AE2, 0x98BADCFE, 0x7BF14AE0, 0xC045BF05, 0x5109913A);
    Turn(h, ws, 3, 0x5109913A, 0xEBF3B452, 0xC045BF05, 0x59D148C0, 0x7BF36AE2, 0xD041FC80, 0xBAFCED14, 0x2C4F6EAC);
    Turn(h, ws, 4, 0x2C4F6EAC, 0x5109913A, 0xBAFCED14, 0xC045BF05, 0x59D148C0, 0x904CAF15, 0x9442644E, 0x33F4AE5B);
    Turn(h, ws, 5, 0x33F4AE5B, 0x2C4F6EAC, 0x9442644E, 0xBAFCED14, 0xC045BF05, 0x96F2E51C, 0x0B13DBAB, 0x96B85189);
    Turn(h, ws, 6, 0x96B85189, 0x33F4AE5B, 0x0B13DBAB, 0x9442644E, 0xBAFCED14, 0x8712CA0F, 0xCCFD2B96, 0xDB04CB58);
    Turn(h, ws, 7, 0xDB04CB58, 0x96B85189, 0xCCFD2B96, 0x0B13DBAB, 0x9442644E, 0x8DBB8BA2, 0x65AE1462, 0x45833F0F);
    Turn(h, ws, 8, 0x45833F0F, 0xDB04CB58, 0x65AE1462, 0xCCFD2B96, 0x0B13DBAB, 0x45FD20C6, 0x36C132D6, 0xC565C35E);
    Turn(h, ws, 9, 0xC565C35E, 0x45833F0F, 0x36C132D6, 0x65AE1462, 0xCCFD2B96, 0x24AD3266, 0xD160CFC3, 0x6350AFDA);
    Turn(h, ws, 10, 0x6350AFDA, 0xC565C35E, 0xD160CFC3, 0x36C132D6, 0x65AE1462, 0xF3E0F3C2, 0xB15970D7, 0x8993EA77);
    Turn(h, ws, 11, 0x8993EA77, 0x6350AFDA, 0xB15970D7, 0xD160CFC3, 0x36C132D6, 0xB17060D3, 0x98D42BF6, 0xE19ECAA2);
    Turn(h, ws, 12, 0xE19ECAA2, 0x8993EA77, 0x98D42BF6, 0xB15970D7, 0xD160CFC3, 0xB8D83AF6, 0xE264FA9D, 0x8603481E);
    Turn(h, ws, 13, 0x8603481E, 0xE19ECAA2, 0xE264FA9D, 0x98D42BF6, 0xB15970D7, 0xF844EBD4, 0xB867B2A8, 0x32F94A85);
    Turn(h, ws, 14, 0x32F94A85, 0x8603481E, 0xB867B2A8, 0xE264FA9D, 0x98D42BF6, 0xE067B289, 0xA180D207, 0xB2E7A8BE);
    Turn(h, ws, 15, 0xB2E7A8BE, 0x32F94A85, 0xA180D207, 0xB867B2A8, 0xE264FA9D, 0xA886F22D, 0x4CBE52A1, 0x42637E39);
    Turn(h, ws, 16, 0x42637E39, 0xB2E7A8BE, 0x4CBE52A1, 0xA180D207, 0xB867B2A8, 0x01A652A1, 0xACB9EA2F, 0x6B068048);
    Turn(h, ws, 17, 0x6B068048, 0x42637E39, 0xACB9EA2F, 0x4CBE52A1, 0xA180D207, 0x0CBD6AA9, 0x5098DF8E, 0x426B9C35);
    Turn(h, ws, 18, 0x426B9C35, 0x6B068048, 0x5098DF8E, 0xACB9EA2F, 0x4CBE52A1, 0xC4B9EA2F, 0x1AC1A012, 0x944B1BD1);
    Turn(h, ws, 19, 0x944B1BD1, 0x426B9C35, 0x1AC1A012, 0x5098DF8E, 0xACB9EA2F, 0x12D1C39A, 0x509AE70D, 0x6C445652);
  }

  lemma FirstRounds20(h: State, ws: seq<Word>)
    requires |ws| == 80 && RoundsOver(h, ws, 20) == State(0x6C445652, 0x944B1BD1, 0x509AE70D, 0x1AC1A012, 0x5098DF8E)
    requires Four(ws, 20, 0x6F757B5B, 0x757B5967, 0x8DA16D70, 0xDAEEFABA)
    requires Four(ws, 24, 0xFAF6CAB6, 0xA6FB675A, 0x0C604CC8, 0x604CC02C)
    requires Four(ws, 28, 0x49C0E6E2, 0x2EE8CBBC, 0xCFD72EC4, 0x97E9810E)
    requires Four(ws, 32, 0x0989CBE8, 0xF24843FE, 0x5C40D0BA, 0xA8D9CC3B)
    requires Four(ws, 36, 0xB2B9666E, 0xBA7B71B7, 0x20B28A72, 0xB28AF500)
    ensures RoundsOver(h, ws, 40) == State(0xADEB7478, 0x24957F22, 0x50FE1EBA, 0x564CFF26, 0xAADF0CBB)
  {
    Turn(h, ws, 20, 0x6C445652, 0x944B1BD1, 0x509AE70D, 0x1AC1A012, 0x5098DF8E, 0xDE105CCE, 0x6512C6F4, 0x95836DA5);
    Turn(h, ws, 21, 0x95836DA5, 0x6C445652, 0x6512C6F4, 0x509AE70D, 0x1AC1A012, 0x59CC77AB, 0x9B111594, 0x09511177);
    Turn(h, ws, 22, 0x09511177, 0x95836DA5, 0x9B111594, 0x6512C6F4, 0x509AE70D, 0x6B80BEC5, 0x6560DB69, 0xE2B92DC4);
    Turn(h, ws, 23, 0xE2B92DC4, 0x09511177, 0x6560DB69, 0x9B111594, 0x6512C6F4, 0xF720DF8A, 0xC254445D, 0xFD224575);
    Turn(h, ws, 24, 0xFD224575, 0xE2B92DC4, 0xC254445D, 0x6560DB69, 0x9B111594, 0x458DB2F0, 0x38AE4B71, 0xEEB82D9A);
    Turn(h, ws, 25, 0xEEB82D9A, 0xFD224575, 0x38AE4B71, 0xC254445D, 0x6560DB69, 0x07D84A59, 0x7F48915D, 0x5A142C1A);
    Turn(h, ws, 26, 0x5A142C1A, 0xEEB82D9A, 0x7F48915D, 0x38AE4B71, 0xC254445D, 0xA95EF7B6, 0xBBAE0B66, 0x2972F7C7);
    Turn(h, ws, 27, 0x2972F7C7, 0x5A142C1A, 0xBBAE0B66, 0x7F48915D, 0x38AE4B71, 0x9EF2B621, 0x96850B06, 0xD526A644);
    Turn(h, ws, 28, 0xD526A644, 0x2972F7C7, 0x96850B06, 0xBBAE0B66, 0x7F48915D, 0x0459F7A7, 0xCA5CBDF1, 0xE1122421);
    Turn(h, ws, 29, 0xE1122421, 0xD526A644, 0xCA5CBDF1, 0x96850B06, 0xBBAE0B66, 0x89FF10B3, 0x3549A991, 0x05B457B2);
    Turn(h, ws, 30, 0x05B457B2, 0xE1122421, 0x3549A991, 0xCA5CBDF1, 0x96850B06, 0x1E073041, 0x78448908, 0xA9C84BEC);
    Turn(h, ws, 31, 0xA9C84BEC, 0x05B457B2, 0x78448908, 0x3549A991, 0xCA5CBDF1, 0x48B9772B, 0x816D15EC, 0x52E31F60);
    Turn(h, ws, 32, 0x52E31F60, 0xA9C84BEC, 0x816D15EC, 0x78448908, 0x3549A991, 0x50E1D708, 0x2A7212FB, 0x5AF3242C);
    Turn(h, ws, 33, 0x5AF3242C, 0x52E31F60, 0x2A7212FB, 0x816D15EC, 0x78448908, 0xF9FC1877, 0x14B8C7D8, 0x31C756A9);
    Turn(h, ws, 34, 0x31C756A9, 0x5AF3242C, 0x14B8C7D8, 0x2A7212FB, 0x816D15EC, 0x6439F10F, 0x16BCC90B, 0xE9AC987C);
    Turn(h, ws, 35, 0xE9AC987C, 0x31C756A9, 0x16BCC90B, 0x14B8C7D8, 0x2A7212FB, 0x33C3587A, 0x4C71D5AA, 0xAB7C32EE);
    Turn(h, ws, 36, 0xAB7C32EE, 0xE9AC987C, 0x4C71D5AA, 0x16BCC90B, 0x14B8C7D8, 0xB36184DD, 0x3A6B261F, 0x5933FC99);
    Turn(h, ws, 37, 0x5933FC99, 0xAB7C32EE, 0x3A6B261F, 0x4C71D5AA, 0x16BCC90B, 0xDD66C15B, 0xAADF0CBB, 0x43F87AE9);
    Turn(h, ws, 38, 0x43F87AE9, 0x5933FC99, 0xAADF0CBB, 0x3A6B261F, 0x4C71D5AA, 0xC987D63D, 0x564CFF26, 0x24957F22);
    Turn(h, ws, 39, 0x24957F22, 0x43F87AE9, 0x564CFF26, 0xAADF0CBB, 0x3A6B261F, 0xBF6B8974, 0x50FE1EBA, 0xADEB7478);
  }

  lemma FirstRounds40(h: State, ws: seq<Word>)
    requires |ws| == 80 && RoundsOver(h, ws, 40) == State(0xADEB7478, 0x24957F22, 0x50FE1EBA, 0x564CFF26, 0xAADF0CBB)
    requires Four(ws, 40, 0x8AC87842, 0x289ADDF4, 0x56D51F21, 0xD96B7FD2)
    requires Four(ws, 44, 0x3868E778, 0xAB5E4848, 0x7F0E2118, 0xDE87A111)
    requires Four(ws, 48, 0xE8BE56B0, 0x1A0AE652, 0xCD5611C8, 0x46EF29DC)
    requires Four(ws, 52, 0x60D3DA6D, 0xDDF3BA6E, 0x2737F5E9, 0x4888A710)
    requires Four(ws, 56, 0xD2A1177B, 0x9999633B, 0xD6C69D03, 0xCCF6127B)
    ensures RoundsOver(h, ws, 60) == State(0x9EF775C3, 0xF03D3782, 0xEB029E53, 0xE9A06DC8, 0x1DDB0E44)
  {
    Turn(h, ws, 40, 0xADEB7478, 0x24957F22, 0x50FE1EBA, 0x564CFF26, 0xAADF0CBB, 0x54DC7F22, 0x89255FC8, 0xD70E5010);
    Turn(h, ws, 41, 0xD70E5010, 0xADEB7478, 0x89255FC8, 0x50FE1EBA, 0x564CFF26, 0x89EF5EF8, 0x2B7ADD1E, 0x79BCFB08);
    Turn(h, ws, 42, 0x79BCFB08, 0xD70E5010, 0x2B7ADD1E, 0x89255FC8, 0x50FE1EBA, 0x8B2E5D18, 0x35C39404, 0xF9BCB8DE);
    Turn(h, ws, 43, 0xF9BCB8DE, 0x79BCFB08, 0x35C39404, 0x2B7ADD1E, 0x89255FC8, 0x39FADD0C, 0x1E6F3EC2, 0x633E9561);
    Turn(h, ws, 44, 0x633E9561, 0xF9BCB8DE, 0x1E6F3EC2, 0x35C39404, 0x2B7ADD1E, 0x3DEFBCC6, 0xBE6F2E37, 0x98C1EA64);
    Turn(h, ws, 45, 0x98C1EA64, 0x633E9561, 0xBE6F2E37, 0x1E6F3EC2, 0x35C39404, 0x3E6F3E63, 0x58CFA558, 0xC6EA241E);
    Turn(h, ws, 46, 0xC6EA241E, 0x98C1EA64, 0x58CFA558, 0xBE6F2E37, 0x1E6F3EC2, 0x98CFAE74, 0x26307A99, 0xA2AD4F02);
    Turn(h, ws, 47, 0xA2AD4F02, 0xC6EA241E, 0x26307A99, 0x58CFA558, 0xBE6F2E37, 0x46EA2418, 0xB1BA8907, 0xC8A69090);
    Turn(h, ws, 48, 0xC8A69090, 0xA2AD4F02, 0xB1BA8907, 0x26307A99, 0x58CFA558, 0xA2B84B03, 0xA8AB53C0, 0x88341600);
    Turn(h, ws, 49, 0x88341600, 0xC8A69090, 0xA8AB53C0, 0xB1BA8907, 0x26307A99, 0xA8AA9180, 0x3229A424, 0x7E846F58);
    Turn(h, ws, 50, 0x7E846F58, 0x88341600, 0x3229A424, 0xA8AB53C0, 0xB1BA8907, 0xA8291600, 0x220D0580, 0x86E358BA);
    Turn(h, ws, 51, 0x86E358BA, 0x7E846F58, 0x220D0580, 0x3229A424, 0xA8AB53C0, 0x320D2500, 0x1FA11BD6, 0x8D2E76C8);
    Turn(h, ws, 52, 0x8D2E76C8, 0x86E358BA, 0x1FA11BD6, 0x220D0580, 0x3229A424, 0x06A11992, 0xA1B8D62E, 0xCE892E10);
    Turn(h, ws, 53, 0xCE892E10, 0x8D2E76C8, 0xA1B8D62E, 0x1FA11BD6, 0x220D0580, 0x8DA856CE, 0x234B9DB2, 0xEDEA95B1);
    Turn(h, ws, 54, 0xEDEA95B1, 0xCE892E10, 0x234B9DB2, 0xA1B8D62E, 0x1FA11BD6, 0xA3899E32, 0x33A24B84, 0x36D1230A);
    Turn(h, ws, 55, 0x36D1230A, 0xEDEA95B1, 0x33A24B84, 0x234B9DB2, 0xA1B8D62E, 0x23EA9DB0, 0x7B7AA56C, 0x776C3910);
    Turn(h, ws, 56, 0x776C3910, 0x36D1230A, 0x7B7AA56C, 0x33A24B84, 0x234B9DB2, 0x33F2230C, 0x8DB448C2, 0xA681B723);
    Turn(h, ws, 57, 0xA681B723, 0x776C3910, 0x8DB448C2, 0x7B7AA56C, 0x33A24B84, 0x7F7C2940, 0x1DDB0E44, 0xAC0A794F);
    Turn(h, ws, 58, 0xAC0A794F, 0xA681B723, 0x1DDB0E44, 0x8DB448C2, 0x7B7AA56C, 0x8D910E42, 0xE9A06DC8, 0xF03D3782);
    Turn(h, ws, 59, 0xF03D3782, 0xAC0A794F, 0xE9A06DC8, 0x1DDB0E44, 0x8DB448C2, 0xAD8A6D4C, 0xEB029E53, 0x9EF775C3);
  }

  lemma FirstRounds60(h: State, ws: seq<Word>)
    requires |ws| == 80 && RoundsOver(h, ws, 60) == State(0x9EF775C3, 0xF03D3782, 0xEB029E53, 0xE9A06DC8, 0x1DDB0E44)
    requires Four(ws, 60, 0x7C58FE6D, 0xFDD99C68, 0xF8E32074, 0xE0BA3C7D)
    requires Four(ws, 64, 0x152198D6, 0x7B3F1982, 0x37F2D5B7, 0x8596323E)
    requires Four(ws, 68, 0x810790D6, 0xBEA0A942, 0x11C7E1B1, 0x6158D101)
    requires Four(ws, 72, 0x5FCD77D9, 0x7F2F12E6, 0xF868CFB1, 0xD6E997E9)
    requires Four(ws, 76, 0xF526B852, 0xB7578DCC, 0x55D99DF4, 0x1FF69958)
    ensures RoundsOver(h, ws, 80) == State(0x8CE34517, 0xD3AD7C25, 0x6B4E1883, 0x74351CD2, 0x86838382)
  {
    Turn(h, ws, 60, 0x9EF775C3, 0xF03D3782, 0xEB029E53, 0xE9A06DC8, 0x1DDB0E44, 0xF29FC419, 0xBC0F4DE0, 0x36254B13);
    Turn(h, ws, 61, 0x36254B13, 0x9EF775C3, 0xBC0F4DE0, 0xEB029E53, 0xE9A06DC8, 0xC9FAA670, 0xE7BDDD70, 0x4080D4DC);
    Turn(h, ws, 62, 0x4080D4DC, 0x36254B13, 0xE7BDDD70, 0xBC0F4DE0, 0xEB029E53, 0x6D97DB83, 0xCD8952C4, 0x2BFAF7A8);
    Turn(h, ws, 63, 0x2BFAF7A8, 0x4080D4DC, 0xCD8952C4, 0xE7BDDD70, 0xBC0F4DE0, 0x6AB45B68, 0x10203537, 0x513F9CA0);
    Turn(h, ws, 64, 0x513F9CA0, 0x2BFAF7A8, 0x10203537, 0xCD8952C4, 0xE7BDDD70, 0xF653905B, 0x0AFEBDEA, 0xE5895C81);
    Turn(h, ws, 65, 0xE5895C81, 0x513F9CA0, 0x0AFEBDEA, 0x10203537, 0xCD8952C4, 0x4BE1147D, 0x144FE728, 0x1037D2D5);
    Turn(h, ws, 66, 0x1037D2D5, 0xE5895C81, 0x144FE728, 0x0AFEBDEA, 0x10203537, 0xFB380643, 0x79625720, 0x14A82DA9);
    Turn(h, ws, 67, 0x14A82DA9, 0x1037D2D5, 0x79625720, 0x144FE728, 0x0AFEBDEA, 0x7D1A62DD, 0x440DF4B5, 0x6D17C9FD);
    Turn(h, ws, 68, 0x6D17C9FD, 0x14A82DA9, 0x440DF4B5, 0x79625720, 0x144FE728, 0x29C78E3C, 0x452A0B6A, 0x2C7B07BD);
    Turn(h, ws, 69, 0x2C7B07BD, 0x6D17C9FD, 0x452A0B6A, 0x440DF4B5, 0x79625720, 0x6C303622, 0x5B45F27F, 0xFDF6EFFF);
    Turn(h, ws, 70, 0xFDF6EFFF, 0x2C7B07BD, 0x5B45F27F, 0x452A0B6A, 0x440DF4B5, 0x3214FEA8, 0x4B1EC1EF, 0x112B96E3);
    Turn(h, ws, 71, 0x112B96E3, 0xFDF6EFFF, 0x4B1EC1EF, 0x5B45F27F, 0x452A0B6A, 0xEDADDC6F, 0xFF7DBBFF, 0x84065712);
    Turn(h, ws, 72, 0x84065712, 0x112B96E3, 0xFF7DBBFF, 0x4B1EC1EF, 0x5B45F27F, 0xA548ECF3, 0xC44AE5B8, 0xAB89FB71);
    Turn(h, ws, 73, 0xAB89FB71, 0x84065712, 0xC44AE5B8, 0xFF7DBBFF, 0x4B1EC1EF, 0xBF310955, 0xA10195C4, 0xC5210E35);
    Turn(h, ws, 74, 0xC5210E35, 0xAB89FB71, 0xA10195C4, 0xC44AE5B8, 0xFF7DBBFF, 0xCEC28B0D, 0x6AE27EDC, 0x352D9F4B);
    Turn(h, ws, 75, 0x352D9F4B, 0xC5210E35, 0x6AE27EDC, 0xA10195C4, 0xC44AE5B8, 0x0EC2E52D, 0x7148438D, 0x1A0E0E0A);
    Turn(h, ws, 76, 0x1A0E0E0A, 0x352D9F4B, 0x7148438D, 0x6AE27EDC, 0xA10195C4, 0x2E87A21A, 0xCD4B67D2, 0xD0D47349);
    Turn(h, ws, 77, 0xD0D47349, 0x1A0E0E0A, 0xCD4B67D2, 0x7148438D, 0x6AE27EDC, 0xA60D2A55, 0x86838382, 0xAD38620D);
    Turn(h, ws, 78, 0xAD38620D, 0xD0D47349, 0x86838382, 0xCD4B67D2, 0x7148438D, 0x9B1C9719, 0x74351CD2, 0xD3AD7C25);
    Turn(h, ws, 79, 0xD3AD7C25, 0xAD38620D, 0x74351CD2, 0x86838382, 0xCD4B67D2, 0x5F8EFD5D, 0x6B4E1883, 0x8CE34517);
  }

  lemma FirstRounds(h: State, ws: seq<Word>)
    requires Expanded(ws) && h == State(0x67452301, 0xEFCDAB89, 0x98BADCFE, 0x10325476, 0xC3D2E1F0)
    requires Four(ws, 0, 0x61626364, 0x62636465, 0x63646566, 0x64656667)
    requires Four(ws, 4, 0x65666768, 0x66676869, 0x6768696A, 0x68696A6B)
    requires Four(ws, 8, 0x696A6B6C, 0x6A6B6C6D, 0x6B6C6D6E, 0x6C6D6E6F)
    requires Four(ws, 12, 0x6D6E6F70, 0x6E6F7071, 0x80000000, 0x00000000)
    ensures RoundsOver(h, ws, 80) == State(0x8CE34517, 0xD3AD7C25, 0x6B4E1883, 0x74351CD2, 0x86838382)
  {
    FirstSchedule16(ws);
    FirstSchedule48(ws);
    FirstRounds0(h, ws);
    FirstRounds20(h, ws);
    FirstRounds40(h, ws);
    FirstRounds60(h, ws);
  }

  lemma FirstAdds()
    ensures Added(State(0x67452301, 0xEFCDAB89, 0x98BADCFE, 0x10325476, 0xC3D2E1F0),
                  State(0x8CE34517, 0xD3AD7C25, 0x6B4E1883, 0x74351CD2, 0x86838382)) ==
            State(0xF4286818, 0xC37B27AE, 0x0408F581, 0x84677148, 0x4A566572)
  {
    assert Add(0x67452301, 0x8CE34517) == 0xF4286818;
    assert Add(0xEFCDAB89, 0xD3AD7C25) == 0xC37B27AE;
    assert Add(0x98BADCFE, 0x6B4E1883) == 0x0408F581;
    assert Add(0x10325476, 0x74351CD2) == 0x84677148;
    assert Add(0xC3D2E1F0, 0x86838382) == 0x4A566572;
  }

  // ----- appendix B, second block -----

  lemma SecondSchedule16(ws: seq<Word>)
    requires Expanded(ws)
    requires Four(ws, 0, 0x00000000, 0x00000000, 0x00000000, 0x00000000)
    requires Four(ws, 4, 0x00000000, 0x00000000, 0x00000000, 0x00000000)
    requires Four(ws, 8, 0x00000000, 0x00000000, 0x00000000, 0x00000000)
    requires Four(ws, 12, 0x00000000, 0x00000000, 0x00000000, 0x000001C0)
    ensures Four(ws, 16, 0x00000000, 0x00000000, 0x00000380, 0x00000000)
    ensures Four(ws, 20, 0x00000000, 0x00000700, 0x00000000, 0x00000380)
    ensures Four(ws, 24, 0x00000E00, 0x00000000, 0x00000000, 0x00001C00)
    ensures Four(ws, 28, 0x00000000, 0x00000D80, 0x00003800, 0x00000480)
    ensures Four(ws, 32, 0x00000000, 0x00007000, 0x00000E00, 0x00003600)
    ensures Four(ws, 36, 0x0000E000, 0x00000E00, 0x00000000, 0x0001CE00)
    ensures Four(ws, 40, 0x00000000, 0x0000D800, 0x00038000, 0x00004F00)
    ensures Four(ws, 44, 0x00000000, 0x00070E00, 0x0000EE00, 0x00037500)
  {
    Mixed(ws, 16, 0x00000000, 0x00000000, 0x00000000, 0x00000000, 0x00000000);
    Mixed(ws, 17, 0x00000000, 0x00000000, 0x00000000, 0x00000000, 0x00000000);
    Mixed(ws, 18, 0x000001C0, 0x00000000, 0x00000000, 0x00000000, 0x00000380);
    Mixed(ws, 19, 0x00000000, 0x00000000, 0x00000000, 0x00000000, 0x00000000);
    Mixed(ws, 20, 0x00000000, 0x00000000, 0x00000000, 0x00000000, 0x00000000);
    Mixed(ws, 21, 0x00000380, 0x00000000, 0x00000000, 0x00000000, 0x00000700);
    Mixed(ws, 22, 0x00000000, 0x00000000, 0x00000000, 0x00000000, 0x00000000);
    Mixed(ws, 23, 0x00000000, 0x000001C0, 0x00000000, 0x00000000, 0x00000380);
    Mixed(ws, 24, 0x00000700, 0x00000000, 0x00000000, 0x00000000, 0x00000E00);
    Mixed(ws, 25, 0x00000000, 0x00000000, 0x00000000, 0x00000000, 0x00000000);
    Mixed(ws, 26, 0x00000380, 0x00000380, 0x00000000, 0x00000000, 0x00000000);
    Mixed(ws, 27, 0x00000E00, 0x00000000, 0x00000000, 0x00000000, 0x00001C00);
    Mixed(ws, 28, 0x00000000, 0x00000000, 0x00000000, 0x00000000, 0x00000000);
    Mixed(ws, 29, 0x00000000, 0x00000700, 0x000001C0, 0x00000000, 0x00000D80);
    Mixed(ws, 30, 0x00001C00, 0x00000000, 0x00000000, 0x00000000, 0x00003800);
    Mixed(ws, 31, 0x00000000, 0x00000380, 0x00000000, 0x000001C0, 0x00000480);
    Mixed(ws, 32, 0x00000D80, 0x00000E00, 0x00000380, 0x00000000, 0x00000000);
    Mixed(ws, 33, 0x00003800, 0x00000000, 0x00000000, 0x00000000, 0x00007000);
    Mixed(ws, 34, 0x00000480, 0x00000000, 0x00000000, 0x00000380, 0x00000E00);
    Mixed(ws, 35, 0x00000000, 0x00001C00, 0x00000700, 0x00000000, 0x00003600);
    Mixed(ws, 36, 0x00007000, 0x00000000, 0x00000000, 0x00000000, 0x0000E000);
    Mixed(ws, 37, 0x00000E00, 0x00000D80, 0x00000380, 0x00000700, 0x00000E00);
    Mixed(ws, 38, 0x00003600, 0x00003800, 0x00000E00, 0x00000000, 0x00000000);
    Mixed(ws, 39, 0x0000E000, 0x00000480, 0x00000000, 0x00000380, 0x0001CE00);
    Mixed(ws, 40, 0x00000E00, 0x00000000, 0x00000000, 0x00000E00, 0x00000000);
    Mixed(ws, 41, 0x00000000, 0x00007000, 0x00001C00, 0x00000000, 0x0000D800);
    Mixed(ws, 42, 0x0001CE00, 0x00000E00, 0x00000000, 0x00000000, 0x00038000);
    Mixed(ws, 43, 0x00000000, 0x00003600, 0x00000D80, 0x00001C00, 0x00004F00);
    Mixed(ws, 44, 0x0000D800, 0x0000E000, 0x00003800, 0x00000000, 0x00000000);
    Mixed(ws, 45, 0x00038000, 0x00000E00, 0x00000480, 0x00000D80, 0x00070E00);
    Mixed(ws, 46, 0x00004F00, 0x00000000, 0x00000000, 0x00003800, 0x0000EE00);
    Mixed(ws, 47, 0x00000000, 0x0001CE00, 0x00007000, 0x00000480, 0x00037500);
  }

  lemma SecondSchedule48(ws: seq<Word>)
    requires Expanded(ws)
    requires Four(ws, 32, 0x00000000, 0x00007000, 0x00000E00, 0x00003600)
    requires Four(ws, 36, 0x0000E000, 0x00000E00, 0x00000000, 0x0001CE00)
    requires Four(ws, 40, 0x00000000, 0x0000D800, 0x00038000, 0x00004F00)
    requires Four(ws, 44, 0x00000000, 0x00070E00, 0x0000EE00, 0x00037500)
    ensures Four(ws, 48, 0x000E0000, 0x0000E000, 0x00003600, 0x001CEE00)
    ensures Four(ws, 52, 0x00000000, 0x000DF000, 0x00380000, 0x0004C600)
    ensures Four(ws, 56, 0x0000E000, 0x0070EE00, 0x000EE000, 0x00369E00)
    ensures Four(ws, 60, 0x00E00000, 0x000ED600, 0x0000E000, 0x01CEA600)
    ensures Four(ws, 64, 0x00000000, 0x00D80000, 0x0380E000, 0x004F0000)
    ensures Four(ws, 68, 0x00000000, 0x070E0000, 0x00EE0000, 0x03751C00)
    ensures Four(ws, 72, 0x0E000000, 0x00E0E000, 0x00363800, 0x1CEE9000)
    ensures Four(ws, 76, 0x00000000, 0x0DF09000, 0x3800E000, 0x04C77400)
  {
    Mixed(ws, 48, 0x00070E00, 0x00000000, 0x00000E00, 0x00000000, 0x000E0000);
    Mixed(ws, 49, 0x0000EE00, 0x0000D800, 0x00003600, 0x00007000, 0x0000E000);
    Mixed(ws, 50, 0x00037500, 0x00038000, 0x0000E000, 0x00000E00, 0x00003600);
    Mixed(ws, 51, 0x000E0000, 0x00004F00, 0x00000E00, 0x00003600, 0x001CEE00);
    Mixed(ws, 52, 0x0000E000, 0x00000000, 0x00000000, 0x0000E000, 0x00000000);
    Mixed(ws, 53, 0x00003600, 0x00070E00, 0x0001CE00, 0x00000E00, 0x000DF000);
    Mixed(ws, 54, 0x001CEE00, 0x0000EE00, 0x00000000, 0x00000000, 0x00380000);
    Mixed(ws, 55, 0x00000000, 0x00037500, 0x0000D800, 0x0001CE00, 0x0004C600);
    Mixed(ws, 56, 0x000DF000, 0x000E0000, 0x00038000, 0x00000000, 0x0000E000);
    Mixed(ws, 57, 0x00380000, 0x0000E000, 0x00004F00, 0x0000D800, 0x0070EE00);
    Mixed(ws, 58, 0x0004C600, 0x00003600, 0x00000000, 0x00038000, 0x000EE000);
    Mixed(ws, 59, 0x0000E000, 0x001CEE00, 0x00070E00, 0x00004F00, 0x00369E00);
    Mixed(ws, 60, 0x0070EE00, 0x00000000, 0x0000EE00, 0x00000000, 0x00E00000);
    Mixed(ws, 61, 0x000EE000, 0x000DF000, 0x00037500, 0x00070E00, 0x000ED600);
    Mixed(ws, 62, 0x00369E00, 0x00380000, 0x000E0000, 0x0000EE00, 0x0000E000);
    Mixed(ws, 63, 0x00E00000, 0x0004C600, 0x0000E000, 0x00037500, 0x01CEA600);
    Mixed(ws, 64, 0x000ED600, 0x0000E000, 0x00003600, 0x000E0000, 0x00000000);
    Mixed(ws, 65, 0x0000E000, 0x0070EE00, 0x001CEE00, 0x0000E000, 0x00D80000);
    Mixed(ws, 66, 0x01CEA600, 0x000EE000, 0x00000000, 0x00003600, 0x0380E000);
    Mixed(ws, 67, 0x00000000, 0x00369E00, 0x000DF000, 0x001CEE00, 0x004F0000);
    Mixed(ws, 68, 0x00D80000, 0x00E00000, 0x00380000, 0x00000000, 0x00000000);
    Mixed(ws, 69, 0x0380E000, 0x000ED600, 0x0004C600, 0x000DF000, 0x070E0000);
    Mixed(ws, 70, 0x004F0000, 0x0000E000, 0x0000E000, 0x00380000, 0x00EE0000);
    Mixed(ws, 71, 0x00000000, 0x01CEA600, 0x0070EE00, 0x0004C600, 0x03751C00);
    Mixed(ws, 72, 0x070E0000, 0x00000000, 0x000EE000, 0x0000E000, 0x0E000000);
    Mixed(ws, 73, 0x00EE0000, 0x00D80000, 0x00369E00, 0x0070EE00, 0x00E0E000);
    Mixed(ws, 74, 0x03751C00, 0x0380E000, 0x00E00000, 0x000EE000, 0x00363800);
    Mixed(ws, 75, 0x0E000000, 0x004F0000, 0x000ED600, 0x00369E00, 0x1CEE9000);
    Mixed(ws, 76, 0x00E0E000, 0x00000000, 0x0000E000, 0x00E00000, 0x00000000);
    Mixed(ws, 77, 0x00363800, 0x070E0000, 0x01CEA600, 0x000ED600, 0x0DF09000);
    Mixed(ws, 78, 0x1CEE9000, 0x00EE0000, 0x00000000, 0x0000E000, 0x3800E000);
    Mixed(ws, 79, 0x00000000, 0x03751C00, 0x00D80000, 0x01CEA600, 0x04C77400);
  }

  lemma SecondRounds0(h: State, ws: seq<Word>)
    requires |ws| == 80 && RoundsOver(h, ws, 0) == State(0xF4286818, 0xC37B27AE, 0x0408F581, 0x84677148, 0x4A566572)
    requires Four(ws, 0, 0x00000000, 0x00000000, 0x00000000, 0x00000000)
    requires Four(ws, 4, 0x00000000, 0x00000000, 0x00000000, 0x00000000)
    requires Four(ws, 8, 0x00000000, 0x00000000, 0x00000000, 0x00000000)
    requires Four(ws, 12, 0x00000000, 0x00000000, 0x00000000, 0x000001C0)
    requires Four(ws, 16, 0x00000000, 0x00000000, 0x00000380, 0x00000000)
    ensures RoundsOver(h, ws, 20) == State(0xD8992153, 0xC2EB709F, 0x2946D62F, 0x9541F6DB, 0x365DC8D8)
  {
    Turn(h, ws, 0, 0xF4286818, 0xC37B27AE, 0x0408F581, 0x84677148, 0x4A566572, 0x040C75C0, 0xB0DEC9EB, 0x2DF257E9);
    Turn(h, ws, 1, 0x2DF257E9, 0xF4286818, 0xB0DEC9EB, 0x0408F581, 0x84677148, 0xB008DD89, 0x3D0A1A06, 0x4D3DC58F);
    Turn(h, ws, 2, 0x4D3DC58F, 0x2DF257E9, 0x3D0A1A06, 0xB0DEC9EB, 0x0408F581, 0xBD0E9A02, 0x4B7C95FA, 0xC352BB05);
    Turn(h, ws, 3, 0xC352BB05, 0x4D3DC58F, 0x4B7C95FA, 0x3D0A1A06, 0xB0DEC9EB, 0x793E9F8A, 0xD34F7163, 0xEEF743C6);
    Turn(h, ws, 4, 0xEEF743C6, 0xC352BB05, 0xD34F7163, 0x4B7C95FA, 0x3D0A1A06, 0xCB6E35FB, 0x70D4AEC1, 0x41E34277);
    Turn(h, ws, 5, 0x41E34277, 0xEEF743C6, 0x70D4AEC1, 0xD34F7163, 0x4B7C95FA, 0x71DC32E1, 0xBBBDD0F1, 0x5443915C);
    Turn(h, ws, 6, 0x5443915C, 0x41E34277, 0xBBBDD0F1, 0x70D4AEC1, 0xD34F7163, 0x31B5ECF1, 0xD078D09D, 0xE7FA0377);
    Turn(h, ws, 7, 0xE7FA0377, 0x5443915C, 0xD078D09D, 0xBBBDD0F1, 0x70D4AEC1, 0xFBFCD0BD, 0x1510E457, 0xC6946813);
    Turn(h, ws, 8, 0xC6946813, 0xE7FA0377, 0x1510E457, 0xD078D09D, 0xBBBDD0F1, 0x1510D0DF, 0xF9FE80DD, 0xFDDE1DE1);
    Turn(h, ws, 9, 0xFDDE1DE1, 0xC6946813, 0xF9FE80DD, 0x1510E457, 0xD078D09D, 0xD1948455, 0xF1A51A04, 0xB8538ACA);
    Turn(h, ws, 10, 0xB8538ACA, 0xFDDE1DE1, 0xF1A51A04, 0xF9FE80DD, 0x1510E457, 0xF1A4981C, 0x7F778778, 0x6BA94F63);
    Turn(h, ws, 11, 0x6BA94F63, 0xB8538ACA, 0x7F778778, 0xF1A51A04, 0xF9FE80DD, 0x79F7924C, 0xAE14E2B2, 0x43A2792F);
    Turn(h, ws, 12, 0x43A2792F, 0x6BA94F63, 0xAE14E2B2, 0x7F778778, 0xF1A51A04, 0x3E56C23A, 0xDAEA53D8, 0xFECD7BBF);
    Turn(h, ws, 13, 0xFECD7BBF, 0x43A2792F, 0xDAEA53D8, 0xAE14E2B2, 0x7F778778, 0xEEB6D398, 0xD0E89E4B, 0xA2604CA8);
    Turn(h, ws, 14, 0xA2604CA8, 0xFECD7BBF, 0xD0E89E4B, 0xDAEA53D8, 0xAE14E2B2, 0xD0EA1A4B, 0xFFB35EEF, 0x258B0BAA);
    Turn(h, ws, 15, 0x258B0BAA, 0xA2604CA8, 0xFFB35EEF, 0xD0E89E4B, 0xDAEA53D8, 0xF2A8DEEB, 0x2898132A, 0xD9772360);
    Turn(h, ws, 16, 0xD9772360, 0x258B0BAA, 0x2898132A, 0xFFB35EEF, 0xD0E89E4B, 0xFAB8576F, 0x8962C2EA, 0x5507DB6E);
    Turn(h, ws, 17, 0x5507DB6E, 0xD9772360, 0x8962C2EA, 0x2898132A, 0xFFB35EEF, 0xA9EA126A, 0x365DC8D8, 0xA51B58BC);
    Turn(h, ws, 18, 0xA51B58BC, 0x5507DB6E, 0x365DC8D8, 0x8962C2EA, 0x2898132A, 0x9C65C8C8, 0x9541F6DB, 0xC2EB709F);
    Turn(h, ws, 19, 0xC2EB709F, 0xA51B58BC, 0x9541F6DB, 0x365DC8D8, 0x8962C2EA, 0x9745D0D8, 0x2946D62F, 0xD8992153);
  }

  lemma SecondRounds20(h: State, ws: seq<Word>)
    requires |ws| == 80 && RoundsOver(h, ws, 20) == State(0xD8992153, 0xC2EB709F, 0x2946D62F, 0x9541F6DB, 0x365DC8D8)
    requires Four(ws, 20, 0x00000000, 0x00000700, 0x00000000, 0x00000380)
    requires Four(ws, 24, 0x00000E00, 0x00000000, 0x00000000, 0x00001C00)
    requires Four(ws, 28, 0x00000000, 0x00000D80, 0x00003800, 0x00000480)
    requires Four(ws, 32, 0x00000000, 0x00007000, 0x00000E00, 0x00003600)
    requires Four(ws, 36, 0x0000E000, 0x00000E00, 0x00000000, 0x0001CE00)
    ensures RoundsOver(h, ws, 40) == State(0x03BB6310, 0x84E2A5F2, 0x21F56E03, 0xB3BD6B84, 0x1A5B6901)
  {
    Turn(h, ws, 20, 0xD8992153, 0xC2EB709F, 0x2946D62F, 0x9541F6DB, 0x365DC8D8, 0x7EEC506B, 0xF0BADC27, 0x37482F5F);
    Turn(h, ws, 21, 0x37482F5F, 0xD8992153, 0xF0BADC27, 0x2946D62F, 0x9541F6DB, 0x01652B5B, 0xF6264854, 0xEE8700BD);
    Turn(h, ws, 22, 0xEE8700BD, 0x37482F5F, 0xF6264854, 0xF0BADC27, 0x2946D62F, 0x31D4BB2C, 0xCDD20BD7, 0x9AD594B9);
    Turn(h, ws, 23, 0x9AD594B9, 0xEE8700BD, 0xCDD20BD7, 0xF6264854, 0xF0BADC27, 0xD573433E, 0x7BA1C02F, 0x8FBAA5B9);
    Turn(h, ws, 24, 0x8FBAA5B9, 0x9AD594B9, 0x7BA1C02F, 0xCDD20BD7, 0xF6264854, 0x2CA65F41, 0x66B5652E, 0x88FB5867);
    Turn(h, ws, 25, 0x88FB5867, 0x8FBAA5B9, 0x66B5652E, 0x7BA1C02F, 0xCDD20BD7, 0x92AE00B8, 0x63EEA96E, 0xEEC50521);
    Turn(h, ws, 26, 0xEEC50521, 0x88FB5867, 0x63EEA96E, 0x66B5652E, 0x7BA1C02F, 0x8DA09427, 0xE23ED619, 0x50BCE434);
    Turn(h, ws, 27, 0x50BCE434, 0xEEC50521, 0xE23ED619, 0x63EEA96E, 0x66B5652E, 0x6F157A56, 0x7BB14148, 0x5C416DAF);
    Turn(h, ws, 28, 0x5C416DAF, 0x50BCE434, 0x7BB14148, 0xE23ED619, 0x63EEA96E, 0xC9337365, 0x142F390D, 0x2429BE5F);
    Turn(h, ws, 29, 0x2429BE5F, 0x5C416DAF, 0x142F390D, 0x7BB14148, 0xE23ED619, 0x33DF15EA, 0xD7105B6B, 0x0A2FB108);
    Turn(h, ws, 30, 0x0A2FB108, 0x2429BE5F, 0xD7105B6B, 0x142F390D, 0x7BB14148, 0xE716DC39, 0xC90A6F97, 0x17986223);
    Turn(h, ws, 31, 0x17986223, 0x0A2FB108, 0xC90A6F97, 0xD7105B6B, 0x142F390D, 0x143585F4, 0x028BEC42, 0x8A4AF384);
    Turn(h, ws, 32, 0x8A4AF384, 0x17986223, 0x028BEC42, 0xC90A6F97, 0xD7105B6B, 0xDC19E1F6, 0xC5E61888, 0x6B629993);
    Turn(h, ws, 33, 0x6B629993, 0x8A4AF384, 0xC5E61888, 0x028BEC42, 0xC90A6F97, 0x4D27074E, 0x2292BCE1, 0xF15F04F3);
    Turn(h, ws, 34, 0xF15F04F3, 0x6B629993, 0x2292BCE1, 0xC5E61888, 0x028BEC42, 0x8C163DFA, 0xDAD8A664, 0x295CC25B);
    Turn(h, ws, 35, 0x295CC25B, 0xF15F04F3, 0xDAD8A664, 0x2292BCE1, 0xC5E61888, 0x09151E76, 0xFC57C13C, 0x696DA404);
    Turn(h, ws, 36, 0x696DA404, 0x295CC25B, 0xFC57C13C, 0xDAD8A664, 0x2292BCE1, 0x0FD3A503, 0xCA573096, 0xCEF5AE12);
    Turn(h, ws, 37, 0xCEF5AE12, 0x696DA404, 0xCA573096, 0xFC57C13C, 0xDAD8A664, 0x5F6D55AE, 0x1A5B6901, 0x87D5B80C);
    Turn(h, ws, 38, 0x87D5B80C, 0xCEF5AE12, 0x1A5B6901, 0xCA573096, 0xFC57C13C, 0x1EF9F785, 0xB3BD6B84, 0x84E2A5F2);
    Turn(h, ws, 39, 0x84E2A5F2, 0x87D5B80C, 0xB3BD6B84, 0x1A5B6901, 0xCA573096, 0x2E33BA89, 0x21F56E03, 0x03BB6310);
  }

  lemma SecondRounds40(h: State, ws: seq<Word>)
    requires |ws| == 80 && RoundsOver(h, ws, 40) == State(0x03BB6310, 0x84E2A5F2, 0x21F56E03, 0xB3BD6B84, 0x1A5B6901)
    requires Four(ws, 40, 0x00000000, 0x0000D800, 0x00038000, 0x00004F00)
    requires Four(ws, 44, 0x00000000, 0x00070E00, 0x0000EE00, 0x00037500)
    requires Four(ws, 48, 0x000E0000, 0x0000E000, 0x00003600, 0x001CEE00)
    requires Four(ws, 52, 0x00000000, 0x000DF000, 0x00380000, 0x0004C600)
    requires Four(ws, 56, 0x0000E000, 0x0070EE00, 0x000EE000, 0x00369E00)
    ensures RoundsOver(h, ws, 60) == State(0xA65818F7, 0x5B086C42, 0xB9E15956, 0xEA1256A6, 0xDB69CB9F)
  {
    Turn(h, ws, 40, 0x03BB6310, 0x84E2A5F2, 0x21F56E03, 0xB3BD6B84, 0x1A5B6901, 0xA1F56F82, 0xA138A97C, 0xC2D8F75F);
    Turn(h, ws, 41, 0xC2D8F75F, 0x03BB6310, 0xA138A97C, 0x21F56E03, 0xB3BD6B84, 0x21B96B10, 0x00EED8C4, 0xBFB25768);
    Turn(h, ws, 42, 0xBFB25768, 0xC2D8F75F, 0x00EED8C4, 0xA138A97C, 0x21F56E03, 0x80F8F95C, 0xF0B63DD7, 0x28589152);
    Turn(h, ws, 43, 0x28589152, 0xBFB25768, 0xF0B63DD7, 0x00EED8C4, 0xA138A97C, 0xB0B65DC4, 0x2FEC95DA, 0xEC1D3D61);
    Turn(h, ws, 44, 0xEC1D3D61, 0x28589152, 0x2FEC95DA, 0xF0B63DD7, 0x00EED8C4, 0x28FC95D2, 0x8A162454, 0x3CAED7AF);
    Turn(h, ws, 45, 0x3CAED7AF, 0xEC1D3D61, 0x8A162454, 0x2FEC95DA, 0xF0B63DD7, 0xAE1C3550, 0x7B074F58, 0xC3D033EA);
    Turn(h, ws, 46, 0xC3D033EA, 0x3CAED7AF, 0x7B074F58, 0x8A162454, 0x2FEC95DA, 0x3A06475C, 0xCF2BB5EB, 0x7316056A);
    Turn(h, ws, 47, 0x7316056A, 0xC3D033EA, 0xCF2BB5EB, 0x7B074F58, 0x8A162454, 0xCB0337EA, 0xB0F40CFA, 0x46F93B68);
    Turn(h, ws, 48, 0x46F93B68, 0x7316056A, 0xB0F40CFA, 0xCF2BB5EB, 0x7B074F58, 0xF33605EA, 0x9CC5815A, 0xDC8E7F26);
    Turn(h, ws, 49, 0xDC8E7F26, 0x46F93B68, 0x9CC5815A, 0xB0F40CFA, 0xCF2BB5EB, 0x94F5097A, 0x11BE4EDA, 0x850D411C);
    Turn(h, ws, 50, 0x850D411C, 0xDC8E7F26, 0x11BE4EDA, 0x9CC5815A, 0xB0F40CFA, 0x9C8E4F5A, 0xB7239FC9, 0x7E4672C0);
    Turn(h, ws, 51, 0x7E4672C0, 0x850D411C, 0xB7239FC9, 0x11BE4EDA, 0x9CC5815A, 0x952F4FD8, 0x21435047, 0x89FBD41D);
    Turn(h, ws, 52, 0x89FBD41D, 0x7E4672C0, 0x21435047, 0xB7239FC9, 0x11BE4EDA, 0x374352C1, 0x1F919CB0, 0x1797E228);
    Turn(h, ws, 53, 0x1797E228, 0x89FBD41D, 0x1F919CB0, 0x21435047, 0xB7239FC9, 0x09D3D415, 0x627EF507, 0x431D65BC);
    Turn(h, ws, 54, 0x431D65BC, 0x1797E228, 0x627EF507, 0x1F919CB0, 0x21435047, 0x1797F420, 0x05E5F88A, 0x2BDBB8CB);
    Turn(h, ws, 55, 0x2BDBB8CB, 0x431D65BC, 0x05E5F88A, 0x627EF507, 0x1F919CB0, 0x437DF58E, 0x10C7596F, 0x6DA72E7F);
    Turn(h, ws, 56, 0x6DA72E7F, 0x2BDBB8CB, 0x10C7596F, 0x05E5F88A, 0x627EF507, 0x01C7F8CB, 0xCAF6EE32, 0xA8495A9B);
    Turn(h, ws, 57, 0xA8495A9B, 0x6DA72E7F, 0xCAF6EE32, 0x10C7596F, 0x05E5F88A, 0x48E76E7F, 0xDB69CB9F, 0xE785655A);
    Turn(h, ws, 58, 0xE785655A, 0xA8495A9B, 0xDB69CB9F, 0xCAF6EE32, 0x10C7596F, 0xCA69CA9B, 0xEA1256A6, 0x5B086C42);
    Turn(h, ws, 59, 0x5B086C42, 0xE785655A, 0xEA1256A6, 0xDB69CB9F, 0xCAF6EE32, 0xEB01479E, 0xB9E15956, 0xA65818F7);
  }

  lemma SecondRounds60(h: State, ws: seq<Word>)
    requires |ws| == 80 && RoundsOver(h, ws, 60) == State(0xA65818F7, 0x5B086C42, 0xB9E15956, 0xEA1256A6, 0xDB69CB9F)
    requires Four(ws, 60, 0x00E00000, 0x000ED600, 0x0000E000, 0x01CEA600)
    requires Four(ws, 64, 0x00000000, 0x00D80000, 0x0380E000, 0x004F0000)
    requires Four(ws, 68, 0x00000000, 0x070E0000, 0x00EE0000, 0x03751C00)
    requires Four(ws, 72, 0x0E000000, 0x00E0E000, 0x00363800, 0x1CEE9000)
    requires Four(ws, 76, 0x00000000, 0x0DF09000, 0x3800E000, 0x04C77400)
    ensures RoundsOver(h, ws, 80) == State(0x906FD62C, 0x58C0AAC0, 0xB6A55520, 0x74E9B89D, 0x9AF00B7F)
  {
    Turn(h, ws, 60, 0xA65818F7, 0x5B086C42, 0xB9E15956, 0xEA1256A6, 0xDB69CB9F, 0x08FB63B2, 0x96C21B10, 0x7AAB101B);
    Turn(h, ws, 61, 0x7AAB101B, 0xA65818F7, 0x96C21B10, 0xB9E15956, 0xEA1256A6, 0x897B5AB1, 0xE996063D, 0x93614C9C);
    Turn(h, ws, 62, 0x93614C9C, 0x7AAB101B, 0xE996063D, 0x96C21B10, 0xB9E15956, 0x05FF0D36, 0xDEAAC406, 0xF66D9BF4);
    Turn(h, ws, 63, 0xF66D9BF4, 0x93614C9C, 0xDEAAC406, 0xE996063D, 0x96C21B10, 0xA45D8EA7, 0x24D85327, 0xD504902B);
    Turn(h, ws, 64, 0xD504902B, 0xF66D9BF4, 0x24D85327, 0xDEAAC406, 0xE996063D, 0x0C1F0CD5, 0x3D9B66FD, 0x60A9DA62);
    Turn(h, ws, 65, 0x60A9DA62, 0xD504902B, 0x3D9B66FD, 0x24D85327, 0xDEAAC406, 0xCC47A5F1, 0xF541240A, 0x8B687819);
    Turn(h, ws, 66, 0x8B687819, 0x60A9DA62, 0xF541240A, 0x3D9B66FD, 0x24D85327, 0xA8739895, 0x982A7698, 0x083E90C3);
    Turn(h, ws, 67, 0x083E90C3, 0x8B687819, 0x982A7698, 0xF541240A, 0x3D9B66FD, 0xE6032A8B, 0x62DA1E06, 0xF6226BBF);
    Turn(h, ws, 68, 0xF6226BBF, 0x083E90C3, 0x62DA1E06, 0x982A7698, 0xF541240A, 0xF2CEF85D, 0xC20FA430, 0x76C0563B);
    Turn(h, ws, 69, 0x76C0563B, 0xF6226BBF, 0xC20FA430, 0x62DA1E06, 0x982A7698, 0x56F7D189, 0xFD889AEF, 0x989DD165);
    Turn(h, ws, 70, 0x989DD165, 0x76C0563B, 0xFD889AEF, 0xC20FA430, 0x62DA1E06, 0x494768E4, 0xDDB0158E, 0x8B2C7573);
    Turn(h, ws, 71, 0x8B2C7573, 0x989DD165, 0xDDB0158E, 0xFD889AEF, 0xC20FA430, 0xB8A55E04, 0x66277459, 0xAE1B8E7B);
    Turn(h, ws, 72, 0xAE1B8E7B, 0x8B2C7573, 0x66277459, 0xDDB0158E, 0xFD889AEF, 0x30BB14A4, 0xE2CB1D5C, 0xCA1840DE);
    Turn(h, ws, 73, 0xCA1840DE, 0xAE1B8E7B, 0xE2CB1D5C, 0x66277459, 0xDDB0158E, 0x2AF7E77E, 0xEB86E39E, 0x16F3BABB);
    Turn(h, ws, 74, 0x16F3BABB, 0xCA1840DE, 0xEB86E39E, 0xE2CB1D5C, 0x66277459, 0xC355BE1C, 0xB2861037, 0xD28D83AD);
    Turn(h, ws, 75, 0xD28D83AD, 0x16F3BABB, 0xB2861037, 0xEB86E39E, 0xE2CB1D5C, 0x4FF34912, 0xC5BCEEAE, 0x6BC02DFE);
    Turn(h, ws, 76, 0x6BC02DFE, 0xD28D83AD, 0xC5BCEEAE, 0xB2861037, 0xEB86E39E, 0xA5B77D34, 0x74A360EB, 0xD3A6E275);
    Turn(h, ws, 77, 0xD3A6E275, 0x6BC02DFE, 0x74A360EB, 0xC5BCEEAE, 0xB2861037, 0xDADFA3BB, 0x9AF00B7F, 0xDA955482);
    Turn(h, ws, 78, 0xDA955482, 0xD3A6E275, 0x9AF00B7F, 0x74A360EB, 0xC5BCEEAE, 0x3DF589E1, 0x74E9B89D, 0x58C0AAC0);
    Turn(h, ws, 79, 0x58C0AAC0, 0xDA955482, 0x74E9B89D, 0x9AF00B7F, 0x74A360EB, 0x348CE760, 0xB6A55520, 0x906FD62C);
  }

  lemma SecondRounds(h: State, ws: seq<Word>)
    requires Expanded(ws) && h == State(0xF4286818, 0xC37B27AE, 0x0408F581, 0x84677148, 0x4A566572)
    requires Four(ws, 0, 0x00000000, 0x00000000, 0x00000000, 0x00000000)
    requires Four(ws, 4, 0x00000000, 0x00000000, 0x00000000, 0x00000000)
    requires Four(ws, 8, 0x00000000, 0x00000000, 0x00000000, 0x00000000)
    requires Four(ws, 12, 0x00000000, 0x00000000, 0x00000000, 0x000001C0)
    ensures RoundsOver(h, ws, 80) == State(0x906FD62C, 0x58C0AAC0, 0xB6A55520, 0x74E9B89D, 0x9AF00B7F)
  {
    SecondSchedule16(ws);
    SecondSchedule48(ws);
    SecondRounds0(h, ws);
    SecondRounds20(h, ws);
    SecondRounds40(h, ws);
    SecondRounds60(h, ws);
  }

  lemma SecondAdds()
    ensures Added(State(0xF4286818, 0xC37B27AE, 0x0408F581, 0x84677148, 0x4A566572),
                  State(0x906FD62C, 0x58C0AAC0, 0xB6A55520, 0x74E9B89D, 0x9AF00B7F)) ==
            State(0x84983E44, 0x1C3BD26E, 0xBAAE4AA1, 0xF95129E5, 0xE54670F1)
  {
    assert Add(0xF4286818, 0x906FD62C) == 0x84983E44;
    assert Add(0xC37B27AE, 0x58C0AAC0) == 0x1C3BD26E;
    assert Add(0x0408F581, 0xB6A55520) == 0xBAAE4AA1;
    assert Add(0x84677148, 0x74E9B89D) == 0xF95129E5;
    assert Add(0x4A566572, 0x9AF00B7F) == 0xE54670F1;
  }

  // ----- the digests -----

  lemma DigestIs(m: seq<Byte>, s: State)
    requires Chained(Padded(m), |Padded(m)| / 64) == s
    ensures Digest(m) == DigestBytes(s)
  {
  }

  lemma OneBlock(p: seq<Byte>, s: State)
    requires |p| == 64 && Compress(H0, p) == s
    ensures Chained(p, |p| / 64) == s
  {
    assert p[0..64] == p;
    assert Chained(p, 0) == H0;
  }

  lemma TwoBlocks(p: seq<Byte>, first: State, s: State)
    requires |p| == 128 && Compress(H0, p[0..64]) == first && Compress(first, p[64..128]) == s
    ensures Chained(p, |p| / 64) == s
  {
    assert Chained(p, 0) == H0;
    assert Chained(p, 1) == first;
  }

  // ----- words and bytes -----

  lemma {:induction false} ByteOfZero(i: nat)
    ensures ByteAt(0, i) == 0
  {
    if i > 0 { ByteOfZero(i - 1); }
  }

  lemma LengthBytes(n: nat)
    requires n < 0x1_0000
    ensures BigEndian8(n) == [0, 0, 0, 0, 0, 0, n / 256, n % 256]
  {
    ByteOfZero(0);
    ByteOfZero(1);
    ByteOfZero(2);
    ByteOfZero(3);
    ByteOfZero(4);
    ByteOfZero(5);
    assert n / 256 / 256 == 0;
    assert ByteAt(n, 1) == n / 256 && ByteAt(n, 2) == ByteAt(0, 0) && ByteAt(n, 3) == ByteAt(0, 1);
    assert ByteAt(n, 4) == ByteAt(0, 2) && ByteAt(n, 5) == ByteAt(0, 3);
    assert ByteAt(n, 6) == ByteAt(0, 4) && ByteAt(n, 7) == ByteAt(0, 5);
  }

  /** A short message padded: itself, 0x80, zeros, and its length in the last two bytes. */
  lemma PaddedShort(m: seq<Byte>, n: nat)
    requires |m| < 0x1000 && n == |m| + 9 + Gap(|m|)
    ensures |Padded(m)| == n && Padded(m)[..|m|] == m && Padded(m)[|m|] == 0x80
    ensures forall k :: |m| < k < n - 2 ==> Padded(m)[k] == 0
    ensures Padded(m)[n - 2] == 8 * |m| / 256 && Padded(m)[n - 1] == 8 * |m| % 256
  {
    LengthBytes(8 * |m|);
  }

  /** "abc", padded: three letters, 0x80, zeros, and the length in bits. */
  predicate IsAbcBlock(block: seq<Byte>) {
    && |block| == 64 && block[0] == 0x61 && block[1] == 0x62 && block[2] == 0x63 && block[3] == 0x80
    && (forall k :: 4 <= k < 63 ==> block[k] == 0) && block[63] == 24
  }

  /** The message of appendix B, "abcdbcdecdef..." up to "nopq": its words are four letters in a row, each
      word one letter further on. */
  predicate IsLong(m: seq<Byte>) {
    |m| == 56 && forall k :: 0 <= k < 56 ==> m[k] == 97 + k / 4 + k % 4
  }

  predicate IsLongFirst(block: seq<Byte>) {
    && |block| == 64 && (forall k :: 0 <= k < 56 ==> block[k] == 97 + k / 4 + k % 4)
    && block[56] == 0x80 && forall k :: 57 <= k < 64 ==> block[k] == 0
  }

  predicate IsLongSecond(block: seq<Byte>) {
    |block| == 64 && (forall k :: 0 <= k < 62 ==> block[k] == 0) && block[62] == 1 && block[63] == 192
  }

  lemma AbcPadded(m: seq<Byte>)
    requires m == [0x61, 0x62, 0x63]
    ensures IsAbcBlock(Padded(m))
  {
    PaddedShort(m, 64);
    assert Padded(m)[..3][0] == 0x61 && Padded(m)[..3][1] == 0x62 && Padded(m)[..3][2] == 0x63;
  }

  lemma LongPadded(m: seq<Byte>)
    requires IsLong(m)
    ensures |Padded(m)| == 128 && IsLongFirst(Padded(m)[0..64]) && IsLongSecond(Padded(m)[64..128])
  {
    var p := Padded(m);
    PaddedShort(m, 128);
    forall k | 0 <= k < 56
      ensures p[k] == 97 + k / 4 + k % 4
    {
      assert p[k] == p[..56][k];
    }
  }

  lemma AbcWords0(block: seq<Byte>)
    requires IsAbcBlock(block)
    ensures Four(Schedule(block, 80), 0, 0x61626380, 0x00000000, 0x00000000, 0x00000000)
  {
    FirstIs(block, 0, 0x61, 0x62, 0x63, 0x80, 0x61626380);
    FirstIs(block, 1, 0x00, 0x00, 0x00, 0x00, 0x00000000);
    FirstIs(block, 2, 0x00, 0x00, 0x00, 0x00, 0x00000000);
    FirstIs(block, 3, 0x00, 0x00, 0x00, 0x00, 0x00000000);
  }

  lemma AbcWords4(block: seq<Byte>)
    requires IsAbcBlock(block)
    ensures Four(Schedule(block, 80), 4, 0x00000000, 0x00000000, 0x00000000, 0x00000000)
  {
    FirstIs(block, 4, 0x00, 0x00, 0x00, 0x00, 0x00000000);
    FirstIs(block, 5, 0x00, 0x00, 0x00, 0x00, 0x00000000);
    FirstIs(block, 6, 0x00, 0x00, 0x00, 0x00, 0x00000000);
    FirstIs(block, 7, 0x00, 0x00, 0x00, 0x00, 0x00000000);
  }

  lemma AbcWords8(block: seq<Byte>)
    requires IsAbcBlock(block)
    ensures Four(Schedule(block, 80), 8, 0x00000000, 0x00000000, 0x00000000, 0x00000000)
  {
    FirstIs(block, 8, 0x00, 0x00, 0x00, 0x00, 0x00000000);
    FirstIs(block, 9, 0x00, 0x00, 0x00, 0x00, 0x00000000);
    FirstIs(block, 10, 0x00, 0x00, 0x00, 0x00, 0x00000000);
    FirstIs(block, 11, 0x00, 0x00, 0x00, 0x00, 0x00000000);
  }

  lemma AbcWords12(block: seq<Byte>)
    requires IsAbcBlock(block)
    ensures Four(Schedule(block, 80), 12, 0x00000000, 0x00000000, 0x00000000, 0x00000018)
  {
    FirstIs(block, 12, 0x00, 0x00, 0x00, 0x00, 0x00000000);
    FirstIs(block, 13, 0x00, 0x00, 0x00, 0x00, 0x00000000);
    FirstIs(block, 14, 0x00, 0x00, 0x00, 0x00, 0x00000000);
    FirstIs(block, 15, 0x00, 0x00, 0x00, 0x18, 0x00000018);
  }

  lemma AbcCompressed(block: seq<Byte>)
    requires IsAbcBlock(block)
    ensures Compress(State(0x67452301, 0xEFCDAB89, 0x98BADCFE, 0x10325476, 0xC3D2E1F0), block) ==
            State(0xA9993E36, 0x4706816A, 0xBA3E2571, 0x7850C26C, 0x9CD0D89D)
  {
    var h := State(0x67452301, 0xEFCDAB89, 0x98BADCFE, 0x10325476, 0xC3D2E1F0);
    ScheduleIsExpanded(block);
    AbcWords0(block);
    AbcWords4(block);
    AbcWords8(block);
    AbcWords12(block);
    AbcRounds(h, Schedule(block, 80));
    RoundsAreOver(h, block, 80);
    AbcAdds();
    CompressIs(h, block, State(0x42541B35, 0x5738D5E1, 0x21834873, 0x681E6DF6, 0xD8FDF6AD),
               State(0xA9993E36, 0x4706816A, 0xBA3E2571, 0x7850C26C, 0x9CD0D89D));
  }

  lemma FirstWords0(block: seq<Byte>)
    requires IsLongFirst(block)
    ensures Four(Schedule(block, 80), 0, 0x61626364, 0x62636465, 0x63646566, 0x64656667)
  {
    FirstIs(block, 0, 0x61, 0x62, 0x63, 0x64, 0x61626364);
    FirstIs(block, 1, 0x62, 0x63, 0x64, 0x65, 0x62636465);
    FirstIs(block, 2, 0x63, 0x64, 0x65, 0x66, 0x63646566);
    FirstIs(block, 3, 0x64, 0x65, 0x66, 0x67, 0x64656667);
  }

  lemma FirstWords4(block: seq<Byte>)
    requires IsLongFirst(block)
    ensures Four(Schedule(block, 80), 4, 0x65666768, 0x66676869, 0x6768696A, 0x68696A6B)
  {
    FirstIs(block, 4, 0x65, 0x66, 0x67, 0x68, 0x65666768);
    FirstIs(block, 5, 0x66, 0x67, 0x68, 0x69, 0x66676869);
    FirstIs(block, 6, 0x67, 0x68, 0x69, 0x6A, 0x6768696A);
    FirstIs(block, 7, 0x68, 0x69, 0x6A, 0x6B, 0x68696A6B);
  }

  lemma FirstWords8(block: seq<Byte>)
    requires IsLongFirst(block)
    ensures Four(Schedule(block, 80), 8, 0x696A6B6C, 0x6A6B6C6D, 0x6B6C6D6E, 0x6C6D6E6F)
  {
    FirstIs(block, 8, 0x69, 0x6A, 0x6B, 0x6C, 0x696A6B6C);
    FirstIs(block, 9, 0x6A, 0x6B, 0x6C, 0x6D, 0x6A6B6C6D);
    FirstIs(block, 10, 0x6B, 0x6C, 0x6D, 0x6E, 0x6B6C6D6E);
    FirstIs(block, 11, 0x6C, 0x6D, 0x6E, 0x6F, 0x6C6D6E6F);
  }

  lemma FirstWords12(block: seq<Byte>)
    requires IsLongFirst(block)
    ensures Four(Schedule(block, 80), 12, 0x6D6E6F70, 0x6E6F7071, 0x80000000, 0x00000000)
  {
    FirstIs(block, 12, 0x6D, 0x6E, 0x6F, 0x70, 0x6D6E6F70);
    FirstIs(block, 13, 0x6E, 0x6F, 0x70, 0x71, 0x6E6F7071);
    FirstIs(block, 14, 0x80, 0x00, 0x00, 0x00, 0x80000000);
    FirstIs(block, 15, 0x00, 0x00, 0x00, 0x00, 0x00000000);
  }

  lemma FirstCompressed(block: seq<Byte>)
    requires IsLongFirst(block)
    ensures Compress(State(0x67452301, 0xEFCDAB89, 0x98BADCFE, 0x10325476, 0xC3D2E1F0), block) ==
            State(0xF4286818, 0xC37B27AE, 0x0408F581, 0x84677148, 0x4A566572)
  {
    var h := State(0x67452301, 0xEFCDAB89, 0x98BADCFE, 0x10325476, 0xC3D2E1F0);
    ScheduleIsExpanded(block);
    FirstWords0(block);
    FirstWords4(block);
    FirstWords8(block);
    FirstWords12(block);
    FirstRounds(h, Schedule(block, 80));
    RoundsAreOver(h, block, 80);
    FirstAdds();
    CompressIs(h, block, State(0x8CE34517, 0xD3AD7C25, 0x6B4E1883, 0x74351CD2, 0x86838382),
               State(0xF4286818, 0xC37B27AE, 0x0408F581, 0x84677148, 0x4A566572));
  }

  lemma SecondWords0(block: seq<Byte>)
    requires IsLongSecond(block)
    ensures Four(Schedule(block, 80), 0, 0x00000000, 0x00000000, 0x00000000, 0x00000000)
  {
    FirstIs(block, 0, 0x00, 0x00, 0x00, 0x00, 0x00000000);
    FirstIs(block, 1, 0x00, 0x00, 0x00, 0x00, 0x00000000);
    FirstIs(block, 2, 0x00, 0x00, 0x00, 0x00, 0x00000000);
    FirstIs(block, 3, 0x00, 0x00, 0x00, 0x00, 0x00000000);
  }

  lemma SecondWords4(block: seq<Byte>)
    requires IsLongSecond(block)
    ensures Four(Schedule(block, 80), 4, 0x00000000, 0x00000000, 0x00000000, 0x00000000)
  {
    FirstIs(block, 4, 0x00, 0x00, 0x00, 0x00, 0x00000000);
    FirstIs(block, 5, 0x00, 0x00, 0x00, 0x00, 0x00000000);
    FirstIs(block, 6, 0x00, 0x00, 0x00, 0x00, 0x00000000);
    FirstIs(block, 7, 0x00, 0x00, 0x00, 0x00, 0x00000000);
  }

  lemma SecondWords8(block: seq<Byte>)
    requires IsLongSecond(block)
    ensures Four(Schedule(block, 80), 8, 0x00000000, 0x00000000, 0x00000000, 0x00000000)
  {
    FirstIs(block, 8, 0x00, 0x00, 0x00, 0x00, 0x00000000);
    FirstIs(block, 9, 0x00, 0x00, 0x00, 0x00, 0x00000000);
    FirstIs(block, 10, 0x00, 0x00, 0x00, 0x00, 0x00000000);
    FirstIs(block, 11, 0x00, 0x00, 0x00, 0x00, 0x00000000);
  }

  lemma SecondWords12(block: seq<Byte>)
    requires IsLongSecond(block)
    ensures Four(Schedule(block, 80), 12, 0x00000000, 0x00000000, 0x00000000, 0x000001C0)
  {
    FirstIs(block, 12, 0x00, 0x00, 0x00, 0x00, 0x00000000);
    FirstIs(block, 13, 0x00, 0x00, 0x00, 0x00, 0x00000000);
    FirstIs(block, 14, 0x00, 0x00, 0x00, 0x00, 0x00000000);
    FirstIs(block, 15, 0x00, 0x00, 0x01, 0xC0, 0x000001C0);
  }

  lemma SecondCompressed(block: seq<Byte>)
    requires IsLongSecond(block)
    ensures Compress(State(0xF4286818, 0xC37B27AE, 0x0408F581, 0x84677148, 0x4A566572), block) ==
            State(0x84983E44, 0x1C3BD26E, 0xBAAE4AA1, 0xF95129E5, 0xE54670F1)
  {
    var h := State(0xF4286818, 0xC37B27AE, 0x0408F581, 0x84677148, 0x4A566572);
    ScheduleIsExpanded(block);
    SecondWords0(block);
    SecondWords4(block);
    SecondWords8(block);
    SecondWords12(block);
    SecondRounds(h, Schedule(block, 80));
    RoundsAreOver(h, block, 80);
    SecondAdds();
    CompressIs(h, block, State(0x906FD62C, 0x58C0AAC0, 0xB6A55520, 0x74E9B89D, 0x9AF00B7F),
               State(0x84983E44, 0x1C3BD26E, 0xBAAE4AA1, 0xF95129E5, 0xE54670F1));
  }

  function Abc(): (m: seq<Byte>)
    ensures m == [0x61, 0x62, 0x63]
  {
    [0x61, 0x62, 0x63]
  }

  function Long(): (m: seq<Byte>)
    ensures IsLong(m)
  {
    seq(56, k requires 0 <= k < 56 => 97 + k / 4 + k % 4)
  }

  lemma WordBytesAre(w: Word, b0: Byte, b1: Byte, b2: Byte, b3: Byte)
    requires LowByte(w >> 24) == b0 && LowByte(w >> 16) == b1 && LowByte(w >> 8) == b2 && LowByte(w) == b3
    ensures WordBytes(w) == [b0, b1, b2, b3]
  {
  }

  lemma AbcChain(p: seq<Byte>)
    requires IsAbcBlock(p)
    ensures Chained(p, |p| / 64) == State(0xA9993E36, 0x4706816A, 0xBA3E2571, 0x7850C26C, 0x9CD0D89D)
  {
    AbcCompressed(p);
    OneBlock(p, State(0xA9993E36, 0x4706816A, 0xBA3E2571, 0x7850C26C, 0x9CD0D89D));
  }

  lemma LongChain(p: seq<Byte>)
    requires |p| == 128 && IsLongFirst(p[0..64]) && IsLongSecond(p[64..128])
    ensures Chained(p, |p| / 64) ==
            State(0x84983E44, 0x1C3BD26E, 0xBAAE4AA1, 0xF95129E5, 0xE54670F1)
  {
    FirstCompressed(p[0..64]);
    SecondCompressed(p[64..128]);
    TwoBlocks(p, State(0xF4286818, 0xC37B27AE, 0x0408F581, 0x84677148, 0x4A566572),
              State(0x84983E44, 0x1C3BD26E, 0xBAAE4AA1, 0xF95129E5, 0xE54670F1));
  }

  lemma AbcBytes()
    ensures DigestBytes(State(0xA9993E36, 0x4706816A, 0xBA3E2571, 0x7850C26C, 0x9CD0D89D)) ==
            [0xA9, 0x99, 0x3E, 0x36] + [0x47, 0x06, 0x81, 0x6A] + [0xBA, 0x3E, 0x25, 0x71]
            + [0x78, 0x50, 0xC2, 0x6C] + [0x9C, 0xD0, 0xD8, 0x9D]
  {
    WordBytesAre(0xA9993E36, 0xA9, 0x99, 0x3E, 0x36);
    WordBytesAre(0x4706816A, 0x47, 0x06, 0x81, 0x6A);
    WordBytesAre(0xBA3E2571, 0xBA, 0x3E, 0x25, 0x71);
    WordBytesAre(0x7850C26C, 0x78, 0x50, 0xC2, 0x6C);
    WordBytesAre(0x9CD0D89D, 0x9C, 0xD0, 0xD8, 0x9D);
  }

  /** Appendix A: A9993E36 4706816A BA3E2571 7850C26C 9CD0D89D. */
  lemma AbcDigest()
    ensures Digest(Abc()) ==
            [0xA9, 0x99, 0x3E, 0x36] + [0x47, 0x06, 0x81, 0x6A] + [0xBA, 0x3E, 0x25, 0x71]
            + [0x78, 0x50, 0xC2, 0x6C] + [0x9C, 0xD0, 0xD8, 0x9D]
  {
    var m := Abc();
    AbcPadded(m);
    AbcChain(Padded(m));
    AbcBytes();
    DigestIs(m, State(0xA9993E36, 0x4706816A, 0xBA3E2571, 0x7850C26C, 0x9CD0D89D));
  }

  lemma LongBytes()
    ensures DigestBytes(State(0x84983E44, 0x1C3BD26E, 0xBAAE4AA1, 0xF95129E5, 0xE54670F1)) ==
            [0x84, 0x98, 0x3E, 0x44] + [0x1C, 0x3B, 0xD2, 0x6E] + [0xBA, 0xAE, 0x4A, 0xA1]
            + [0xF9, 0x51, 0x29, 0xE5] + [0xE5, 0x46, 0x70, 0xF1]
  {
    WordBytesAre(0x84983E44, 0x84, 0x98, 0x3E, 0x44);
    WordBytesAre(0x1C3BD26E, 0x1C, 0x3B, 0xD2, 0x6E);
    WordBytesAre(0xBAAE4AA1, 0xBA, 0xAE, 0x4A, 0xA1);
    WordBytesAre(0xF95129E5, 0xF9, 0x51, 0x29, 0xE5);
    WordBytesAre(0xE54670F1, 0xE5, 0x46, 0x70, 0xF1);
  }

  /** Appendix B: 84983E44 1C3BD26E BAAE4AA1 F95129E5 E54670F1. */
  lemma LongDigest()
    ensures Digest(Long()) ==
            [0x84, 0x98, 0x3E, 0x44] + [0x1C, 0x3B, 0xD2, 0x6E] + [0xBA, 0xAE, 0x4A, 0xA1]
            + [0xF9, 0x51, 0x29, 0xE5] + [0xE5, 0x46, 0x70, 0xF1]
  {
    var m := Long();
    LongPadded(m);
    LongChain(Padded(m));
    LongBytes();
    DigestIs(m, State(0x84983E44, 0x1C3BD26E, 0xBAAE4AA1, 0xF95129E5, 0xE54670F1));
  }

  // ----- the parts -----

  /** The constants are the square roots of 2, 3, 5 and 10, scaled by 2^30 and rounded down. */
  lemma ConstantsAreRoots(t: nat)
    ensures var n := if t < 20 then 2 else if t < 40 then 3 else if t < 60 then 5 else 10;
            var k := K(t) as nat;
            k * k <= n * 0x1000_0000_0000_0000 < (k + 1) * (k + 1)
  {
    assert (0x5A827999 as Word) as nat == 0x5A827999 && (0x6ED9EBA1 as Word) as nat == 0x6ED9EBA1;
    assert (0x8F1BBCDC as Word) as nat == 0x8F1BBCDC && (0xCA62C1D6 as Word) as nat == 0xCA62C1D6;
  }

  /** Bit `i` of a word, from the right. */
  predicate Bit(w: Word, i: Word)
    requires i < 32
  {
    (w >> i) & 1 == 1
  }

  /** Where `b` is set the choice is `c`, where it is clear the choice is `d`. */
  lemma ChooseByBits(b: Word, c: Word, d: Word)
    ensures Ch(b, c, d) & b == c & b
    ensures Ch(b, c, d) & !b == d & !b
  {
  }

  /** Where two bits agree the parity is the third one, where they differ its opposite. */
  lemma ParityByBits(b: Word, c: Word, d: Word)
    ensures Parity(b, c, d) & !(b ^ c) == d & !(b ^ c)
    ensures Parity(b, c, d) & (b ^ c) == !d & (b ^ c)
  {
  }

  /** Where two bits agree the majority is what they say, where they differ the third one decides. */
  lemma MajorityByBits(b: Word, c: Word, d: Word)
    ensures Maj(b, c, d) & !(b ^ c) == b & !(b ^ c)
    ensures Maj(b, c, d) & (b ^ c) == d & (b ^ c)
  {
  }
}
