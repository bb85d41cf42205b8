/** The code tables of the video decoder. */
module MdecTables {
  /** A variable-length code for a run of zeros and a level. */
  datatype Vlc = Vlc(code: nat, length: nat, run: nat, level: nat)

  function Entry(k: nat): Vlc
    requires k < 111
  {
    match k
    case 0 => Vlc(3, 2, 0, 1) case 1 => Vlc(4, 4, 0, 2) case 2 => Vlc(5, 5, 0, 3)
    case 3 => Vlc(6, 7, 0, 4) case 4 => Vlc(38, 8, 0, 5) case 5 => Vlc(33, 8, 0, 6)
    case 6 => Vlc(10, 10, 0, 7) case 7 => Vlc(29, 12, 0, 8) case 8 => Vlc(24, 12, 0, 9)
    case 9 => Vlc(19, 12, 0, 10) case 10 => Vlc(16, 12, 0, 11) case 11 => Vlc(26, 13, 0, 12)
    case 12 => Vlc(25, 13, 0, 13) case 13 => Vlc(24, 13, 0, 14) case 14 => Vlc(23, 13, 0, 15)
    case 15 => Vlc(31, 14, 0, 16) case 16 => Vlc(30, 14, 0, 17) case 17 => Vlc(29, 14, 0, 18)
    case 18 => Vlc(28, 14, 0, 19) case 19 => Vlc(27, 14, 0, 20) case 20 => Vlc(26, 14, 0, 21)
    case 21 => Vlc(25, 14, 0, 22) case 22 => Vlc(24, 14, 0, 23) case 23 => Vlc(23, 14, 0, 24)
    case 24 => Vlc(22, 14, 0, 25) case 25 => Vlc(21, 14, 0, 26) case 26 => Vlc(20, 14, 0, 27)
    case 27 => Vlc(19, 14, 0, 28) case 28 => Vlc(18, 14, 0, 29) case 29 => Vlc(17, 14, 0, 30)
    case 30 => Vlc(16, 14, 0, 31) case 31 => Vlc(24, 15, 0, 32) case 32 => Vlc(23, 15, 0, 33)
    case 33 => Vlc(22, 15, 0, 34) case 34 => Vlc(21, 15, 0, 35) case 35 => Vlc(20, 15, 0, 36)
    case 36 => Vlc(19, 15, 0, 37) case 37 => Vlc(18, 15, 0, 38) case 38 => Vlc(17, 15, 0, 39)
    case 39 => Vlc(16, 15, 0, 40) case 40 => Vlc(3, 3, 1, 1) case 41 => Vlc(6, 6, 1, 2)
    case 42 => Vlc(37, 8, 1, 3) case 43 => Vlc(12, 10, 1, 4) case 44 => Vlc(27, 12, 1, 5)
    case 45 => Vlc(22, 13, 1, 6) case 46 => Vlc(21, 13, 1, 7) case 47 => Vlc(31, 15, 1, 8)
    case 48 => Vlc(30, 15, 1, 9) case 49 => Vlc(29, 15, 1, 10) case 50 => Vlc(28, 15, 1, 11)
    case 51 => Vlc(27, 15, 1, 12) case 52 => Vlc(26, 15, 1, 13) case 53 => Vlc(25, 15, 1, 14)
    case 54 => Vlc(19, 16, 1, 15) case 55 => Vlc(18, 16, 1, 16) case 56 => Vlc(17, 16, 1, 17)
    case 57 => Vlc(16, 16, 1, 18) case 58 => Vlc(5, 4, 2, 1) case 59 => Vlc(4, 7, 2, 2)
    case 60 => Vlc(11, 10, 2, 3) case 61 => Vlc(20, 12, 2, 4) case 62 => Vlc(20, 13, 2, 5)
    case 63 => Vlc(7, 5, 3, 1) case 64 => Vlc(36, 8, 3, 2) case 65 => Vlc(28, 12, 3, 3)
    case 66 => Vlc(19, 13, 3, 4) case 67 => Vlc(6, 5, 4, 1) case 68 => Vlc(15, 10, 4, 2)
    case 69 => Vlc(18, 12, 4, 3) case 70 => Vlc(7, 6, 5, 1) case 71 => Vlc(9, 10, 5, 2)
    case 72 => Vlc(18, 13, 5, 3) case 73 => Vlc(5, 6, 6, 1) case 74 => Vlc(30, 12, 6, 2)
    case 75 => Vlc(20, 16, 6, 3) case 76 => Vlc(4, 6, 7, 1) case 77 => Vlc(21, 12, 7, 2)
    case 78 => Vlc(7, 7, 8, 1) case 79 => Vlc(17, 12, 8, 2) case 80 => Vlc(5, 7, 9, 1)
    case 81 => Vlc(17, 13, 9, 2) case 82 => Vlc(39, 8, 10, 1) case 83 => Vlc(16, 13, 10, 2)
    case 84 => Vlc(35, 8, 11, 1) case 85 => Vlc(26, 16, 11, 2) case 86 => Vlc(34, 8, 12, 1)
    case 87 => Vlc(25, 16, 12, 2) case 88 => Vlc(32, 8, 13, 1) case 89 => Vlc(24, 16, 13, 2)
    case 90 => Vlc(14, 10, 14, 1) case 91 => Vlc(23, 16, 14, 2) case 92 => Vlc(13, 10, 15, 1)
    case 93 => Vlc(22, 16, 15, 2) case 94 => Vlc(8, 10, 16, 1) case 95 => Vlc(21, 16, 16, 2)
    case 96 => Vlc(31, 12, 17, 1) case 97 => Vlc(26, 12, 18, 1) case 98 => Vlc(25, 12, 19, 1)
    case 99 => Vlc(23, 12, 20, 1) case 100 => Vlc(22, 12, 21, 1) case 101 => Vlc(31, 13, 22, 1)
    case 102 => Vlc(30, 13, 23, 1) case 103 => Vlc(29, 13, 24, 1) case 104 => Vlc(28, 13, 25, 1)
    case 105 => Vlc(27, 13, 26, 1) case 106 => Vlc(31, 16, 27, 1) case 107 => Vlc(30, 16, 28, 1)
    case 108 => Vlc(29, 16, 29, 1) case 109 => Vlc(28, 16, 30, 1) case _ => Vlc(27, 16, 31, 1)
  }

  /** From scan position to place in the 8 by 8 block. */
  function Zigzag(i: nat): (j: nat)
    requires i < 64
    ensures j < 64
  {
    match i
    case 0 => 0 case 1 => 1 case 2 => 8 case 3 => 16 case 4 => 9 case 5 => 2 case 6 => 3 case 7 => 10
    case 8 => 17 case 9 => 24 case 10 => 32 case 11 => 25 case 12 => 18 case 13 => 11 case 14 => 4 case 15 => 5
    case 16 => 12 case 17 => 19 case 18 => 26 case 19 => 33 case 20 => 40 case 21 => 48 case 22 => 41 case 23 => 34
    case 24 => 27 case 25 => 20 case 26 => 13 case 27 => 6 case 28 => 7 case 29 => 14 case 30 => 21 case 31 => 28
    case 32 => 35 case 33 => 42 case 34 => 49 case 35 => 56 case 36 => 57 case 37 => 50 case 38 => 43 case 39 => 36
    case 40 => 29 case 41 => 22 case 42 => 15 case 43 => 23 case 44 => 30 case 45 => 37 case 46 => 44 case 47 => 51
    case 48 => 58 case 49 => 59 case 50 => 52 case 51 => 45 case 52 => 38 case 53 => 31 case 54 => 39 case 55 => 46
    case 56 => 53 case 57 => 60 case 58 => 61 case 59 => 54 case 60 => 47 case 61 => 55 case 62 => 62 case _ => 63
  }

  /** The scan position of a place. */
  function Scan(j: nat): nat
    requires j < 64
  {
    match j
    case 0 => 0 case 1 => 1 case 2 => 5 case 3 => 6 case 4 => 14 case 5 => 15 case 6 => 27 case 7 => 28
    case 8 => 2 case 9 => 4 case 10 => 7 case 11 => 13 case 12 => 16 case 13 => 26 case 14 => 29 case 15 => 42
    case 16 => 3 case 17 => 8 case 18 => 12 case 19 => 17 case 20 => 25 case 21 => 30 case 22 => 41 case 23 => 43
    case 24 => 9 case 25 => 11 case 26 => 18 case 27 => 24 case 28 => 31 case 29 => 40 case 30 => 44 case 31 => 53
    case 32 => 10 case 33 => 19 case 34 => 23 case 35 => 32 case 36 => 39 case 37 => 45 case 38 => 52 case 39 => 54
    case 40 => 20 case 41 => 22 case 42 => 33 case 43 => 38 case 44 => 46 case 45 => 51 case 46 => 55 case 47 => 60
    case 48 => 21 case 49 => 34 case 50 => 37 case 51 => 47 case 52 => 50 case 53 => 56 case 54 => 59 case 55 => 61
    case 56 => 35 case 57 => 36 case 58 => 48 case 59 => 49 case 60 => 57 case 61 => 58 case 62 => 62 case _ => 63
  }

  function Matrix(j: nat): nat
    requires j < 64
  {
    match j
    case 0 => 8 case 1 => 16 case 2 => 19 case 3 => 22 case 4 => 26 case 5 => 27 case 6 => 29 case 7 => 34
    case 8 => 16 case 9 => 16 case 10 => 22 case 11 => 24 case 12 => 27 case 13 => 29 case 14 => 34 case 15 => 37
    case 16 => 19 case 17 => 22 case 18 => 26 case 19 => 27 case 20 => 29 case 21 => 34 case 22 => 34 case 23 => 38
    case 24 => 22 case 25 => 22 case 26 => 26 case 27 => 27 case 28 => 29 case 29 => 34 case 30 => 37 case 31 => 40
    case 32 => 22 case 33 => 26 case 34 => 27 case 35 => 29 case 36 => 32 case 37 => 35 case 38 => 40 case 39 => 48
    case 40 => 26 case 41 => 27 case 42 => 29 case 43 => 32 case 44 => 35 case 45 => 40 case 46 => 48 case 47 => 58
    case 48 => 26 case 49 => 27 case 50 => 29 case 51 => 34 case 52 => 38 case 53 => 46 case 54 => 56 case 55 => 69
    case 56 => 27 case 57 => 29 case 58 => 35 case 59 => 38 case 60 => 46 case 61 => 56 case 62 => 69 case _ => 83
  }

  /** The scan visits no place twice. */
  lemma ZigzagInverse(i: nat)
    requires i < 64
    ensures Scan(Zigzag(i)) == i
  {
  }

  /** The three kinds of code, by their number: 0 to 110 for the table, 111 for the escape
      000001, 112 for the end of block 10. */
  function CodeLength(k: nat): nat
    requires k < 113
  {
    if k == 111 then 6 else if k == 112 then 2 else Entry(k).length
  }

  function CodeValue(k: nat): nat
    requires k < 113
  {
    if k == 111 then 1 else if k == 112 then 2 else Entry(k).code
  }

  /** Which code a 17-bit window begins with, if it begins with any: the codes own disjoint
      intervals of the window's value. */
  function Owner(peek: nat): nat {
    if peek < 384 then
      if peek < 112 then
        if peek < 60 then
          if peek < 46 then
            if peek < 38 then
              if peek < 34 then 57 else if peek < 36 then 56 else 55
            else
              if peek < 40 then 54 else if peek < 42 then 75 else if peek < 44 then 95 else 93
          else
            if peek < 52 then
              if peek < 48 then 91 else if peek < 50 then 89 else 87
            else
              if peek < 54 then 85 else if peek < 56 then 110 else if peek < 58 then 109 else 108
        else
          if peek < 84 then
            if peek < 68 then
              if peek < 62 then 107 else if peek < 64 then 106 else 39
            else
              if peek < 72 then 38 else if peek < 76 then 37 else if peek < 80 then 36 else 35
          else
            if peek < 96 then
              if peek < 88 then 34 else if peek < 92 then 33 else 32
            else
              if peek < 100 then 31 else if peek < 104 then 53 else if peek < 108 then 52 else 51
      else
        if peek < 208 then
          if peek < 152 then
            if peek < 124 then
              if peek < 116 then 50 else if peek < 120 then 49 else 48
            else
              if peek < 128 then 47 else if peek < 136 then 30 else if peek < 144 then 29 else 28
          else
            if peek < 176 then
              if peek < 160 then 27 else if peek < 168 then 26 else 25
            else
              if peek < 184 then 24 else if peek < 192 then 23 else if peek < 200 then 22 else 21
        else
          if peek < 272 then
            if peek < 232 then
              if peek < 216 then 20 else if peek < 224 then 19 else 18
            else
              if peek < 240 then 17 else if peek < 248 then 16 else if peek < 256 then 15 else 83
          else
            if peek < 320 then
              if peek < 288 then 81 else if peek < 304 then 72 else 66
            else
              if peek < 336 then 62 else if peek < 352 then 46 else if peek < 368 then 45 else 14
    else
      if peek < 1536 then
        if peek < 704 then
          if peek < 496 then
            if peek < 432 then
              if peek < 400 then 13 else if peek < 416 then 12 else 11
            else
              if peek < 448 then 105 else if peek < 464 then 104 else if peek < 480 then 103 else 102
          else
            if peek < 576 then
              if peek < 512 then 101 else if peek < 544 then 10 else 79
            else
              if peek < 608 then 69 else if peek < 640 then 9 else if peek < 672 then 61 else 77
        else
          if peek < 928 then
            if peek < 800 then
              if peek < 736 then 100 else if peek < 768 then 99 else 8
            else
              if peek < 832 then 98 else if peek < 864 then 97 else if peek < 896 then 44 else 65
          else
            if peek < 1024 then
              if peek < 960 then 7 else if peek < 992 then 74 else 96
            else
              if peek < 1152 then 94 else if peek < 1280 then 71 else if peek < 1408 then 6 else 60
      else
        if peek < 16896 then
          if peek < 6144 then
            if peek < 1920 then
              if peek < 1664 then 43 else if peek < 1792 then 92 else 90
            else
              if peek < 2048 then 68 else if peek < 4096 then 111 else if peek < 5120 then 59 else 80
          else
            if peek < 10240 then
              if peek < 7168 then 3 else if peek < 8192 then 78 else 76
            else
              if peek < 12288 then 73 else if peek < 14336 then 41 else if peek < 16384 then 70 else 88
        else
          if peek < 20480 then
            if peek < 18432 then
              if peek < 17408 then 5 else if peek < 17920 then 86 else 84
            else
              if peek < 18944 then 64 else if peek < 19456 then 42 else if peek < 19968 then 4 else 82
          else
            if peek < 40960 then
              if peek < 24576 then 2 else if peek < 28672 then 67 else if peek < 32768 then 63 else 1
            else
              if peek < 49152 then 58 else if peek < 65536 then 40 else if peek < 98304 then 112 else 0
  }

  /** The top bits of a 17-bit window: peek >> (17 - length). */
  function TopBits(peek: nat, length: nat): nat {
    match length
    case 2 => peek / 32768 case 3 => peek / 16384 case 4 => peek / 8192 case 5 => peek / 4096
    case 6 => peek / 2048 case 7 => peek / 1024 case 8 => peek / 512 case 9 => peek / 256
    case 10 => peek / 128 case 11 => peek / 64 case 12 => peek / 32 case 13 => peek / 16
    case 14 => peek / 8 case 15 => peek / 4 case 16 => peek / 2 case _ => peek
  }

  /** The window begins with code k. */
  predicate BeginsWith(peek: nat, k: nat)
    requires k < 113
  {
    TopBits(peek, CodeLength(k)) == CodeValue(k)
  }

  lemma Owns0(peek: nat, k: nat)
    requires 0 <= k < 18 && BeginsWith(peek, k)
    ensures Owner(peek) == k
  {
    match k
    case 0 => assert TopBits(peek, 2) == 3;
    case 1 => assert TopBits(peek, 4) == 4;
    case 2 => assert TopBits(peek, 5) == 5;
    case 3 => assert TopBits(peek, 7) == 6;
    case 4 => assert TopBits(peek, 8) == 38;
    case 5 => assert TopBits(peek, 8) == 33;
    case 6 => assert TopBits(peek, 10) == 10;
    case 7 => assert TopBits(peek, 12) == 29;
    case 8 => assert TopBits(peek, 12) == 24;
    case 9 => assert TopBits(peek, 12) == 19;
    case 10 => assert TopBits(peek, 12) == 16;
    case 11 => assert TopBits(peek, 13) == 26;
    case 12 => assert TopBits(peek, 13) == 25;
    case 13 => assert TopBits(peek, 13) == 24;
    case 14 => assert TopBits(peek, 13) == 23;
    case 15 => assert TopBits(peek, 14) == 31;
    case 16 => assert TopBits(peek, 14) == 30;
    case _ => assert TopBits(peek, 14) == 29;
  }

  lemma Owns18(peek: nat, k: nat)
    requires 18 <= k < 32 && BeginsWith(peek, k)
    ensures Owner(peek) == k
  {
    match k
    case 18 => assert TopBits(peek, 14) == 28;
    case 19 => assert TopBits(peek, 14) == 27;
    case 20 => assert TopBits(peek, 14) == 26;
    case 21 => assert TopBits(peek, 14) == 25;
    case 22 => assert TopBits(peek, 14) == 24;
    case 23 => assert TopBits(peek, 14) == 23;
    case 24 => assert TopBits(peek, 14) == 22;
    case 25 => assert TopBits(peek, 14) == 21;
    case 26 => assert TopBits(peek, 14) == 20;
    case 27 => assert TopBits(peek, 14) == 19;
    case 28 => assert TopBits(peek, 14) == 18;
    case 29 => assert TopBits(peek, 14) == 17;
    case 30 => assert TopBits(peek, 14) == 16;
    case _ => assert TopBits(peek, 15) == 24;
  }

  lemma Owns32(peek: nat, k: nat)
    requires 32 <= k < 40 && BeginsWith(peek, k)
    ensures Owner(peek) == k
  {
    match k
    case 32 => assert TopBits(peek, 15) == 23;
    case 33 => assert TopBits(peek, 15) == 22;
    case 34 => assert TopBits(peek, 15) == 21;
    case 35 => assert TopBits(peek, 15) == 20;
    case 36 => assert TopBits(peek, 15) == 19;
    case 37 => assert TopBits(peek, 15) == 18;
    case 38 => assert TopBits(peek, 15) == 17;
    case _ => assert TopBits(peek, 15) == 16;
  }

  lemma Owns40(peek: nat, k: nat)
    requires 40 <= k < 48 && BeginsWith(peek, k)
    ensures Owner(peek) == k
  {
    match k
    case 40 => assert TopBits(peek, 3) == 3;
    case 41 => assert TopBits(peek, 6) == 6;
    case 42 => assert TopBits(peek, 8) == 37;
    case 43 => assert TopBits(peek, 10) == 12;
    case 44 => assert TopBits(peek, 12) == 27;
    case 45 => assert TopBits(peek, 13) == 22;
    case 46 => assert TopBits(peek, 13) == 21;
    case _ => assert TopBits(peek, 15) == 31;
  }

  lemma Owns48(peek: nat, k: nat)
    requires 48 <= k < 55 && BeginsWith(peek, k)
    ensures Owner(peek) == k
  {
    match k
    case 48 => assert TopBits(peek, 15) == 30;
    case 49 => assert TopBits(peek, 15) == 29;
    case 50 => assert TopBits(peek, 15) == 28;
    case 51 => assert TopBits(peek, 15) == 27;
    case 52 => assert TopBits(peek, 15) == 26;
    case 53 => assert TopBits(peek, 15) == 25;
    case _ => assert TopBits(peek, 16) == 19;
  }

  lemma Owns55(peek: nat, k: nat)
    requires 55 <= k < 61 && BeginsWith(peek, k)
    ensures Owner(peek) == k
  {
    match k
    case 55 => assert TopBits(peek, 16) == 18;
    case 56 => assert TopBits(peek, 16) == 17;
    case 57 => assert TopBits(peek, 16) == 16;
    case 58 => assert TopBits(peek, 4) == 5;
    case 59 => assert TopBits(peek, 7) == 4;
    case _ => assert TopBits(peek, 10) == 11;
  }

  lemma Owns61(peek: nat, k: nat)
    requires 61 <= k < 66 && BeginsWith(peek, k)
    ensures Owner(peek) == k
  {
    match k
    case 61 => assert TopBits(peek, 12) == 20;
    case 62 => assert TopBits(peek, 13) == 20;
    case 63 => assert TopBits(peek, 5) == 7;
    case 64 => assert TopBits(peek, 8) == 36;
    case _ => assert TopBits(peek, 12) == 28;
  }

  lemma Owns66(peek: nat, k: nat)
    requires 66 <= k < 70 && BeginsWith(peek, k)
    ensures Owner(peek) == k
  {
    match k
    case 66 => assert TopBits(peek, 13) == 19;
    case 67 => assert TopBits(peek, 5) == 6;
    case 68 => assert TopBits(peek, 10) == 15;
    case _ => assert TopBits(peek, 12) == 18;
  }

  lemma Owns70(peek: nat, k: nat)
    requires 70 <= k < 74 && BeginsWith(peek, k)
    ensures Owner(peek) == k
  {
    match k
    case 70 => assert TopBits(peek, 6) == 7;
    case 71 => assert TopBits(peek, 10) == 9;
    case 72 => assert TopBits(peek, 13) == 18;
    case _ => assert TopBits(peek, 6) == 5;
  }

  lemma Owns74(peek: nat, k: nat)
    requires 74 <= k < 78 && BeginsWith(peek, k)
    ensures Owner(peek) == k
  {
    match k
    case 74 => assert TopBits(peek, 12) == 30;
    case 75 => assert TopBits(peek, 16) == 20;
    case 76 => assert TopBits(peek, 6) == 4;
    case _ => assert TopBits(peek, 12) == 21;
  }

  lemma Owns78(peek: nat, k: nat)
    requires 78 <= k < 82 && BeginsWith(peek, k)
    ensures Owner(peek) == k
  {
    match k
    case 78 => assert TopBits(peek, 7) == 7;
    case 79 => assert TopBits(peek, 12) == 17;
    case 80 => assert TopBits(peek, 7) == 5;
    case _ => assert TopBits(peek, 13) == 17;
  }

  lemma Owns82(peek: nat, k: nat)
    requires 82 <= k < 86 && BeginsWith(peek, k)
    ensures Owner(peek) == k
  {
    match k
    case 82 => assert TopBits(peek, 8) == 39;
    case 83 => assert TopBits(peek, 13) == 16;
    case 84 => assert TopBits(peek, 8) == 35;
    case _ => assert TopBits(peek, 16) == 26;
  }

  lemma Owns86(peek: nat, k: nat)
    requires 86 <= k < 90 && BeginsWith(peek, k)
    ensures Owner(peek) == k
  {
    match k
    case 86 => assert TopBits(peek, 8) == 34;
    case 87 => assert TopBits(peek, 16) == 25;
    case 88 => assert TopBits(peek, 8) == 32;
    case _ => assert TopBits(peek, 16) == 24;
  }

  lemma Owns90(peek: nat, k: nat)
    requires 90 <= k < 94 && BeginsWith(peek, k)
    ensures Owner(peek) == k
  {
    match k
    case 90 => assert TopBits(peek, 10) == 14;
    case 91 => assert TopBits(peek, 16) == 23;
    case 92 => assert TopBits(peek, 10) == 13;
    case _ => assert TopBits(peek, 16) == 22;
  }

  lemma Owns94(peek: nat, k: nat)
    requires 94 <= k < 98 && BeginsWith(peek, k)
    ensures Owner(peek) == k
  {
    match k
    case 94 => assert TopBits(peek, 10) == 8;
    case 95 => assert TopBits(peek, 16) == 21;
    case 96 => assert TopBits(peek, 12) == 31;
    case _ => assert TopBits(peek, 12) == 26;
  }

  lemma Owns98(peek: nat, k: nat)
    requires 98 <= k < 101 && BeginsWith(peek, k)
    ensures Owner(peek) == k
  {
    match k
    case 98 => assert TopBits(peek, 12) == 25;
    case 99 => assert TopBits(peek, 12) == 23;
    case _ => assert TopBits(peek, 12) == 22;
  }

  lemma Owns101(peek: nat, k: nat)
    requires 101 <= k < 104 && BeginsWith(peek, k)
    ensures Owner(peek) == k
  {
    match k
    case 101 => assert TopBits(peek, 13) == 31;
    case 102 => assert TopBits(peek, 13) == 30;
    case _ => assert TopBits(peek, 13) == 29;
  }

  lemma Owns104(peek: nat, k: nat)
    requires 104 <= k < 107 && BeginsWith(peek, k)
    ensures Owner(peek) == k
  {
    match k
    case 104 => assert TopBits(peek, 13) == 28;
    case 105 => assert TopBits(peek, 13) == 27;
    case _ => assert TopBits(peek, 16) == 31;
  }

  lemma Owns107(peek: nat, k: nat)
    requires 107 <= k < 110 && BeginsWith(peek, k)
    ensures Owner(peek) == k
  {
    match k
    case 107 => assert TopBits(peek, 16) == 30;
    case 108 => assert TopBits(peek, 16) == 29;
    case _ => assert TopBits(peek, 16) == 28;
  }

  lemma Owns110(peek: nat, k: nat)
    requires 110 <= k < 113 && BeginsWith(peek, k)
    ensures Owner(peek) == k
  {
    match k
    case 110 => assert TopBits(peek, 16) == 27;
    case 111 => assert TopBits(peek, 6) == 1;
    case _ => assert TopBits(peek, 2) == 2;
  }

  /** The codes, the escape and the end of block form a prefix code: a window that begins with
      one of them begins with no other. */
  lemma OwnerIs(peek: nat, k: nat)
    requires k < 113 && BeginsWith(peek, k)
    ensures Owner(peek) == k
  {
    if k < 18 {
      Owns0(peek, k);
    } else if k < 32 {
      Owns18(peek, k);
    } else if k < 40 {
      Owns32(peek, k);
    } else if k < 48 {
      Owns40(peek, k);
    } else if k < 55 {
      Owns48(peek, k);
    } else if k < 61 {
      Owns55(peek, k);
    } else if k < 66 {
      Owns61(peek, k);
    } else if k < 70 {
      Owns66(peek, k);
    } else if k < 74 {
      Owns70(peek, k);
    } else if k < 78 {
      Owns74(peek, k);
    } else if k < 82 {
      Owns78(peek, k);
    } else if k < 86 {
      Owns82(peek, k);
    } else if k < 90 {
      Owns86(peek, k);
    } else if k < 94 {
      Owns90(peek, k);
    } else if k < 98 {
      Owns94(peek, k);
    } else if k < 101 {
      Owns98(peek, k);
    } else if k < 104 {
      Owns101(peek, k);
    } else if k < 107 {
      Owns104(peek, k);
    } else if k < 110 {
      Owns107(peek, k);
    } else {
      Owns110(peek, k);
    }
  }

  lemma PrefixCode(peek: nat, k: nat, j: nat)
    requires k < 113 && j < 113 && BeginsWith(peek, k) && BeginsWith(peek, j)
    ensures k == j
  {
    OwnerIs(peek, k);
    OwnerIs(peek, j);
  }

  // ---------------------------------------------------------------- the format's tables

  /** How many codes there are for shorter runs of zeros: 40 levels for run 0, 18 for run 1 and so
      on, two each for the runs from 7 to 16 and one each for those from 17 to 31 (table B.5 of
      ISO/IEC 11172-2). */
  function Shorter(run: nat): nat {
    match run
    case 0 => 0 case 1 => 40 case 2 => 58 case 3 => 63 case 4 => 67 case 5 => 70 case 6 => 73
    case _ => if run <= 17 then 76 + 2 * (run - 7) else 96 + (run - 17)
  }

  /** Codes are numbered by run, and within a run by level from 1 on. */
  lemma CodesInOrder(k: nat)
    requires k < 111
    ensures var e := Entry(k); e.run <= 31 && e.level >= 1 && k == Shorter(e.run) + e.level - 1 < Shorter(e.run + 1)
  {
    if k < 40 {
      CodesOfRunZero(k);
    } else if k < 70 {
      CodesOfShortRuns(k);
    } else if k < 90 {
      CodesOfLongRuns(k);
    } else {
      CodesOfLongestRuns(k);
    }
  }

  lemma CodesOfRunZero(k: nat)
    requires k < 40
    ensures Entry(k).run == 0 && Entry(k).level == k + 1
  {
  }

  lemma CodesOfShortRuns(k: nat)
    requires 40 <= k < 70
    ensures var e := Entry(k); 1 <= e.run <= 4 && e.level >= 1 && k == Shorter(e.run) + e.level - 1 < Shorter(e.run + 1)
  {
  }

  lemma CodesOfLongRuns(k: nat)
    requires 70 <= k < 90
    ensures var e := Entry(k);
            5 <= e.run <= 13 && e.level >= 1 && k == Shorter(e.run) + e.level - 1 < Shorter(e.run + 1)
  {
  }

  lemma CodesOfLongestRuns(k: nat)
    requires 90 <= k < 111
    ensures var e := Entry(k);
            14 <= e.run <= 31 && e.level >= 1 && k == Shorter(e.run) + e.level - 1 < Shorter(e.run + 1)
  {
  }

  // The default matrix for intra blocks, row by row (section 2.4.3.2 of ISO/IEC 11172-2).

  lemma FirstRow()
    ensures Matrix(0) == 8 && Matrix(1) == 16 && Matrix(2) == 19 && Matrix(3) == 22
    ensures Matrix(4) == 26 && Matrix(5) == 27 && Matrix(6) == 29 && Matrix(7) == 34
  {
  }

  lemma SecondRow()
    ensures Matrix(8) == 16 && Matrix(9) == 16 && Matrix(10) == 22 && Matrix(11) == 24
    ensures Matrix(12) == 27 && Matrix(13) == 29 && Matrix(14) == 34 && Matrix(15) == 37
  {
  }

  lemma ThirdRow()
    ensures Matrix(16) == 19 && Matrix(17) == 22 && Matrix(18) == 26 && Matrix(19) == 27
    ensures Matrix(20) == 29 && Matrix(21) == 34 && Matrix(22) == 34 && Matrix(23) == 38
  {
  }

  lemma FourthRow()
    ensures Matrix(24) == 22 && Matrix(25) == 22 && Matrix(26) == 26 && Matrix(27) == 27
    ensures Matrix(28) == 29 && Matrix(29) == 34 && Matrix(30) == 37 && Matrix(31) == 40
  {
  }

  lemma FifthRow()
    ensures Matrix(32) == 22 && Matrix(33) == 26 && Matrix(34) == 27 && Matrix(35) == 29
    ensures Matrix(36) == 32 && Matrix(37) == 35 && Matrix(38) == 40 && Matrix(39) == 48
  {
  }

  lemma SixthRow()
    ensures Matrix(40) == 26 && Matrix(41) == 27 && Matrix(42) == 29 && Matrix(43) == 32
    ensures Matrix(44) == 35 && Matrix(45) == 40 && Matrix(46) == 48 && Matrix(47) == 58
  {
  }

  lemma SeventhRow()
    ensures Matrix(48) == 26 && Matrix(49) == 27 && Matrix(50) == 29 && Matrix(51) == 34
    ensures Matrix(52) == 38 && Matrix(53) == 46 && Matrix(54) == 56 && Matrix(55) == 69
  {
  }

  lemma EighthRow()
    ensures Matrix(56) == 27 && Matrix(57) == 29 && Matrix(58) == 35 && Matrix(59) == 38
    ensures Matrix(60) == 46 && Matrix(61) == 56 && Matrix(62) == 69 && Matrix(63) == 83
  {
  }
}
