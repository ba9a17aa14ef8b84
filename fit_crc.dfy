/**
 * The 16-bit frame check sequence of `fit.c`: the byte-indexed table and the
 * table-driven fold `genCrc`, the HDLC FCS-16 of section C.2 of RFC 1662.
 */
module FitCrc {
  import opened FitTypes

  /**
   * One reflected shift of the CRC register with the polynomial 0x8408: the
   * register shifts right and, when the bit shifted out is 1, is xored with
   * 0x8408. The mask `0 - (c & 1)` is all ones exactly in that case.
   */
  function Step(c: bv16): bv16
  {
    (c >> 1) ^ (0x8408 & (0 - (c & 1)))
  }

  lemma StepIsConditionalXor(c: bv16)
    ensures Step(c) == if c & 1 == 1 then (c >> 1) ^ 0x8408 else c >> 1
  {
  }

  /** `n` reflected shifts of the register. */
  function Steps(c: bv16, n: nat): bv16
  {
    if n == 0 then c else Step(Steps(c, n - 1))
  }

  /** Eight reflected shifts: the effect of one byte on the register. */
  function Shift8(c: bv16): bv16
  {
    Steps(c, 8)
  }

  // The constant `fcstab` table of the source, entry for entry, in sixteen
  // rows of sixteen so that each row can be checked on its own.

  /** `fcstab[c]`: the entry of the table at index `c`. */
  function FcsTab(c: bv16): bv16
    requires c < 256
  {
    match c >> 4
    case 0 => FcsRow0(c)
    case 1 => FcsRow1(c)
    case 2 => FcsRow2(c)
    case 3 => FcsRow3(c)
    case 4 => FcsRow4(c)
    case 5 => FcsRow5(c)
    case 6 => FcsRow6(c)
    case 7 => FcsRow7(c)
    case 8 => FcsRow8(c)
    case 9 => FcsRow9(c)
    case 10 => FcsRowA(c)
    case 11 => FcsRowB(c)
    case 12 => FcsRowC(c)
    case 13 => FcsRowD(c)
    case 14 => FcsRowE(c)
    case _ => FcsRowF(c)
  }

  /** Entries 0x00 to 0x0f of `fcstab`. */
  function FcsRow0(c: bv16): bv16
  {
    match c
    case 0x00 => 0x0000 case 0x01 => 0x1189 case 0x02 => 0x2312 case 0x03 => 0x329b
    case 0x04 => 0x4624 case 0x05 => 0x57ad case 0x06 => 0x6536 case 0x07 => 0x74bf
    case 0x08 => 0x8c48 case 0x09 => 0x9dc1 case 0x0a => 0xaf5a case 0x0b => 0xbed3
    case 0x0c => 0xca6c case 0x0d => 0xdbe5 case 0x0e => 0xe97e case 0x0f => 0xf8f7
    case _ => 0
  }

  /** Entries 0x10 to 0x1f of `fcstab`. */
  function FcsRow1(c: bv16): bv16
  {
    match c
    case 0x10 => 0x1081 case 0x11 => 0x0108 case 0x12 => 0x3393 case 0x13 => 0x221a
    case 0x14 => 0x56a5 case 0x15 => 0x472c case 0x16 => 0x75b7 case 0x17 => 0x643e
    case 0x18 => 0x9cc9 case 0x19 => 0x8d40 case 0x1a => 0xbfdb case 0x1b => 0xae52
    case 0x1c => 0xdaed case 0x1d => 0xcb64 case 0x1e => 0xf9ff case 0x1f => 0xe876
    case _ => 0
  }

  /** Entries 0x20 to 0x2f of `fcstab`. */
  function FcsRow2(c: bv16): bv16
  {
    match c
    case 0x20 => 0x2102 case 0x21 => 0x308b case 0x22 => 0x0210 case 0x23 => 0x1399
    case 0x24 => 0x6726 case 0x25 => 0x76af case 0x26 => 0x4434 case 0x27 => 0x55bd
    case 0x28 => 0xad4a case 0x29 => 0xbcc3 case 0x2a => 0x8e58 case 0x2b => 0x9fd1
    case 0x2c => 0xeb6e case 0x2d => 0xfae7 case 0x2e => 0xc87c case 0x2f => 0xd9f5
    case _ => 0
  }

  /** Entries 0x30 to 0x3f of `fcstab`. */
  function FcsRow3(c: bv16): bv16
  {
    match c
    case 0x30 => 0x3183 case 0x31 => 0x200a case 0x32 => 0x1291 case 0x33 => 0x0318
    case 0x34 => 0x77a7 case 0x35 => 0x662e case 0x36 => 0x54b5 case 0x37 => 0x453c
    case 0x38 => 0xbdcb case 0x39 => 0xac42 case 0x3a => 0x9ed9 case 0x3b => 0x8f50
    case 0x3c => 0xfbef case 0x3d => 0xea66 case 0x3e => 0xd8fd case 0x3f => 0xc974
    case _ => 0
  }

  /** Entries 0x40 to 0x4f of `fcstab`. */
  function FcsRow4(c: bv16): bv16
  {
    match c
    case 0x40 => 0x4204 case 0x41 => 0x538d case 0x42 => 0x6116 case 0x43 => 0x709f
    case 0x44 => 0x0420 case 0x45 => 0x15a9 case 0x46 => 0x2732 case 0x47 => 0x36bb
    case 0x48 => 0xce4c case 0x49 => 0xdfc5 case 0x4a => 0xed5e case 0x4b => 0xfcd7
    case 0x4c => 0x8868 case 0x4d => 0x99e1 case 0x4e => 0xab7a case 0x4f => 0xbaf3
    case _ => 0
  }

  /** Entries 0x50 to 0x5f of `fcstab`. */
  function FcsRow5(c: bv16): bv16
  {
    match c
    case 0x50 => 0x5285 case 0x51 => 0x430c case 0x52 => 0x7197 case 0x53 => 0x601e
    case 0x54 => 0x14a1 case 0x55 => 0x0528 case 0x56 => 0x37b3 case 0x57 => 0x263a
    case 0x58 => 0xdecd case 0x59 => 0xcf44 case 0x5a => 0xfddf case 0x5b => 0xec56
    case 0x5c => 0x98e9 case 0x5d => 0x8960 case 0x5e => 0xbbfb case 0x5f => 0xaa72
    case _ => 0
  }

  /** Entries 0x60 to 0x6f of `fcstab`. */
  function FcsRow6(c: bv16): bv16
  {
    match c
    case 0x60 => 0x6306 case 0x61 => 0x728f case 0x62 => 0x4014 case 0x63 => 0x519d
    case 0x64 => 0x2522 case 0x65 => 0x34ab case 0x66 => 0x0630 case 0x67 => 0x17b9
    case 0x68 => 0xef4e case 0x69 => 0xfec7 case 0x6a => 0xcc5c case 0x6b => 0xddd5
    case 0x6c => 0xa96a case 0x6d => 0xb8e3 case 0x6e => 0x8a78 case 0x6f => 0x9bf1
    case _ => 0
  }

  /** Entries 0x70 to 0x7f of `fcstab`. */
  function FcsRow7(c: bv16): bv16
  {
    match c
    case 0x70 => 0x7387 case 0x71 => 0x620e case 0x72 => 0x5095 case 0x73 => 0x411c
    case 0x74 => 0x35a3 case 0x75 => 0x242a case 0x76 => 0x16b1 case 0x77 => 0x0738
    case 0x78 => 0xffcf case 0x79 => 0xee46 case 0x7a => 0xdcdd case 0x7b => 0xcd54
    case 0x7c => 0xb9eb case 0x7d => 0xa862 case 0x7e => 0x9af9 case 0x7f => 0x8b70
    case _ => 0
  }

  /** Entries 0x80 to 0x8f of `fcstab`. */
  function FcsRow8(c: bv16): bv16
  {
    match c
    case 0x80 => 0x8408 case 0x81 => 0x9581 case 0x82 => 0xa71a case 0x83 => 0xb693
    case 0x84 => 0xc22c case 0x85 => 0xd3a5 case 0x86 => 0xe13e case 0x87 => 0xf0b7
    case 0x88 => 0x0840 case 0x89 => 0x19c9 case 0x8a => 0x2b52 case 0x8b => 0x3adb
    case 0x8c => 0x4e64 case 0x8d => 0x5fed case 0x8e => 0x6d76 case 0x8f => 0x7cff
    case _ => 0
  }

  /** Entries 0x90 to 0x9f of `fcstab`. */
  function FcsRow9(c: bv16): bv16
  {
    match c
    case 0x90 => 0x9489 case 0x91 => 0x8500 case 0x92 => 0xb79b case 0x93 => 0xa612
    case 0x94 => 0xd2ad case 0x95 => 0xc324 case 0x96 => 0xf1bf case 0x97 => 0xe036
    case 0x98 => 0x18c1 case 0x99 => 0x0948 case 0x9a => 0x3bd3 case 0x9b => 0x2a5a
    case 0x9c => 0x5ee5 case 0x9d => 0x4f6c case 0x9e => 0x7df7 case 0x9f => 0x6c7e
    case _ => 0
  }

  /** Entries 0xa0 to 0xaf of `fcstab`. */
  function FcsRowA(c: bv16): bv16
  {
    match c
    case 0xa0 => 0xa50a case 0xa1 => 0xb483 case 0xa2 => 0x8618 case 0xa3 => 0x9791
    case 0xa4 => 0xe32e case 0xa5 => 0xf2a7 case 0xa6 => 0xc03c case 0xa7 => 0xd1b5
    case 0xa8 => 0x2942 case 0xa9 => 0x38cb case 0xaa => 0x0a50 case 0xab => 0x1bd9
    case 0xac => 0x6f66 case 0xad => 0x7eef case 0xae => 0x4c74 case 0xaf => 0x5dfd
    case _ => 0
  }

  /** Entries 0xb0 to 0xbf of `fcstab`. */
  function FcsRowB(c: bv16): bv16
  {
    match c
    case 0xb0 => 0xb58b case 0xb1 => 0xa402 case 0xb2 => 0x9699 case 0xb3 => 0x8710
    case 0xb4 => 0xf3af case 0xb5 => 0xe226 case 0xb6 => 0xd0bd case 0xb7 => 0xc134
    case 0xb8 => 0x39c3 case 0xb9 => 0x284a case 0xba => 0x1ad1 case 0xbb => 0x0b58
    case 0xbc => 0x7fe7 case 0xbd => 0x6e6e case 0xbe => 0x5cf5 case 0xbf => 0x4d7c
    case _ => 0
  }

  /** Entries 0xc0 to 0xcf of `fcstab`. */
  function FcsRowC(c: bv16): bv16
  {
    match c
    case 0xc0 => 0xc60c case 0xc1 => 0xd785 case 0xc2 => 0xe51e case 0xc3 => 0xf497
    case 0xc4 => 0x8028 case 0xc5 => 0x91a1 case 0xc6 => 0xa33a case 0xc7 => 0xb2b3
    case 0xc8 => 0x4a44 case 0xc9 => 0x5bcd case 0xca => 0x6956 case 0xcb => 0x78df
    case 0xcc => 0x0c60 case 0xcd => 0x1de9 case 0xce => 0x2f72 case 0xcf => 0x3efb
    case _ => 0
  }

  /** Entries 0xd0 to 0xdf of `fcstab`. */
  function FcsRowD(c: bv16): bv16
  {
    match c
    case 0xd0 => 0xd68d case 0xd1 => 0xc704 case 0xd2 => 0xf59f case 0xd3 => 0xe416
    case 0xd4 => 0x90a9 case 0xd5 => 0x8120 case 0xd6 => 0xb3bb case 0xd7 => 0xa232
    case 0xd8 => 0x5ac5 case 0xd9 => 0x4b4c case 0xda => 0x79d7 case 0xdb => 0x685e
    case 0xdc => 0x1ce1 case 0xdd => 0x0d68 case 0xde => 0x3ff3 case 0xdf => 0x2e7a
    case _ => 0
  }

  /** Entries 0xe0 to 0xef of `fcstab`. */
  function FcsRowE(c: bv16): bv16
  {
    match c
    case 0xe0 => 0xe70e case 0xe1 => 0xf687 case 0xe2 => 0xc41c case 0xe3 => 0xd595
    case 0xe4 => 0xa12a case 0xe5 => 0xb0a3 case 0xe6 => 0x8238 case 0xe7 => 0x93b1
    case 0xe8 => 0x6b46 case 0xe9 => 0x7acf case 0xea => 0x4854 case 0xeb => 0x59dd
    case 0xec => 0x2d62 case 0xed => 0x3ceb case 0xee => 0x0e70 case 0xef => 0x1ff9
    case _ => 0
  }

  /** Entries 0xf0 to 0xff of `fcstab`. */
  function FcsRowF(c: bv16): bv16
  {
    match c
    case 0xf0 => 0xf78f case 0xf1 => 0xe606 case 0xf2 => 0xd49d case 0xf3 => 0xc514
    case 0xf4 => 0xb1ab case 0xf5 => 0xa022 case 0xf6 => 0x92b9 case 0xf7 => 0x8330
    case 0xf8 => 0x7bc7 case 0xf9 => 0x6a4e case 0xfa => 0x58d5 case 0xfb => 0x495c
    case 0xfc => 0x3de3 case 0xfd => 0x2c6a case 0xfe => 0x1ef1 case 0xff => 0x0f78
    case _ => 0
  }

  /** Eight reflected shifts of the indices 0x00 to 0x0f, computed. */
  lemma ShiftValues0()
    ensures Shift8(0x00) == 0x0000 &&
      Shift8(0x01) == 0x1189 &&
      Shift8(0x02) == 0x2312 &&
      Shift8(0x03) == 0x329b &&
      Shift8(0x04) == 0x4624 &&
      Shift8(0x05) == 0x57ad &&
      Shift8(0x06) == 0x6536 &&
      Shift8(0x07) == 0x74bf &&
      Shift8(0x08) == 0x8c48 &&
      Shift8(0x09) == 0x9dc1 &&
      Shift8(0x0a) == 0xaf5a &&
      Shift8(0x0b) == 0xbed3 &&
      Shift8(0x0c) == 0xca6c &&
      Shift8(0x0d) == 0xdbe5 &&
      Shift8(0x0e) == 0xe97e &&
      Shift8(0x0f) == 0xf8f7
  {
  }

  lemma TableRow0()
    ensures forall c: bv16 :: 0x00 <= c <= 0x0f ==> FcsTab(c) == Shift8(c)
  {
    ShiftValues0();
    forall c: bv16 | 0x00 <= c <= 0x0f
      ensures FcsTab(c) == Shift8(c)
    {
        if c == 0x00 {
        } else if c == 0x01 {
        } else if c == 0x02 {
        } else if c == 0x03 {
        } else if c == 0x04 {
        } else if c == 0x05 {
        } else if c == 0x06 {
        } else if c == 0x07 {
        } else if c == 0x08 {
        } else if c == 0x09 {
        } else if c == 0x0a {
        } else if c == 0x0b {
        } else if c == 0x0c {
        } else if c == 0x0d {
        } else if c == 0x0e {
        } else if c == 0x0f {
        }
    }
  }

  /** Eight reflected shifts of the indices 0x10 to 0x1f, computed. */
  lemma ShiftValues1()
    ensures Shift8(0x10) == 0x1081 &&
      Shift8(0x11) == 0x0108 &&
      Shift8(0x12) == 0x3393 &&
      Shift8(0x13) == 0x221a &&
      Shift8(0x14) == 0x56a5 &&
      Shift8(0x15) == 0x472c &&
      Shift8(0x16) == 0x75b7 &&
      Shift8(0x17) == 0x643e &&
      Shift8(0x18) == 0x9cc9 &&
      Shift8(0x19) == 0x8d40 &&
      Shift8(0x1a) == 0xbfdb &&
      Shift8(0x1b) == 0xae52 &&
      Shift8(0x1c) == 0xdaed &&
      Shift8(0x1d) == 0xcb64 &&
      Shift8(0x1e) == 0xf9ff &&
      Shift8(0x1f) == 0xe876
  {
  }

  lemma TableRow1()
    ensures forall c: bv16 :: 0x10 <= c <= 0x1f ==> FcsTab(c) == Shift8(c)
  {
    ShiftValues1();
    forall c: bv16 | 0x10 <= c <= 0x1f
      ensures FcsTab(c) == Shift8(c)
    {
        if c == 0x10 {
        } else if c == 0x11 {
        } else if c == 0x12 {
        } else if c == 0x13 {
        } else if c == 0x14 {
        } else if c == 0x15 {
        } else if c == 0x16 {
        } else if c == 0x17 {
        } else if c == 0x18 {
        } else if c == 0x19 {
        } else if c == 0x1a {
        } else if c == 0x1b {
        } else if c == 0x1c {
        } else if c == 0x1d {
        } else if c == 0x1e {
        } else if c == 0x1f {
        }
    }
  }

  /** Eight reflected shifts of the indices 0x20 to 0x2f, computed. */
  lemma ShiftValues2()
    ensures Shift8(0x20) == 0x2102 &&
      Shift8(0x21) == 0x308b &&
      Shift8(0x22) == 0x0210 &&
      Shift8(0x23) == 0x1399 &&
      Shift8(0x24) == 0x6726 &&
      Shift8(0x25) == 0x76af &&
      Shift8(0x26) == 0x4434 &&
      Shift8(0x27) == 0x55bd &&
      Shift8(0x28) == 0xad4a &&
      Shift8(0x29) == 0xbcc3 &&
      Shift8(0x2a) == 0x8e58 &&
      Shift8(0x2b) == 0x9fd1 &&
      Shift8(0x2c) == 0xeb6e &&
      Shift8(0x2d) == 0xfae7 &&
      Shift8(0x2e) == 0xc87c &&
      Shift8(0x2f) == 0xd9f5
  {
  }

  lemma TableRow2()
    ensures forall c: bv16 :: 0x20 <= c <= 0x2f ==> FcsTab(c) == Shift8(c)
  {
    ShiftValues2();
    forall c: bv16 | 0x20 <= c <= 0x2f
      ensures FcsTab(c) == Shift8(c)
    {
        if c == 0x20 {
        } else if c == 0x21 {
        } else if c == 0x22 {
        } else if c == 0x23 {
        } else if c == 0x24 {
        } else if c == 0x25 {
        } else if c == 0x26 {
        } else if c == 0x27 {
        } else if c == 0x28 {
        } else if c == 0x29 {
        } else if c == 0x2a {
        } else if c == 0x2b {
        } else if c == 0x2c {
        } else if c == 0x2d {
        } else if c == 0x2e {
        } else if c == 0x2f {
        }
    }
  }

  /** Eight reflected shifts of the indices 0x30 to 0x3f, computed. */
  lemma ShiftValues3()
    ensures Shift8(0x30) == 0x3183 &&
      Shift8(0x31) == 0x200a &&
      Shift8(0x32) == 0x1291 &&
      Shift8(0x33) == 0x0318 &&
      Shift8(0x34) == 0x77a7 &&
      Shift8(0x35) == 0x662e &&
      Shift8(0x36) == 0x54b5 &&
      Shift8(0x37) == 0x453c &&
      Shift8(0x38) == 0xbdcb &&
      Shift8(0x39) == 0xac42 &&
      Shift8(0x3a) == 0x9ed9 &&
      Shift8(0x3b) == 0x8f50 &&
      Shift8(0x3c) == 0xfbef &&
      Shift8(0x3d) == 0xea66 &&
      Shift8(0x3e) == 0xd8fd &&
      Shift8(0x3f) == 0xc974
  {
  }

  lemma TableRow3()
    ensures forall c: bv16 :: 0x30 <= c <= 0x3f ==> FcsTab(c) == Shift8(c)
  {
    ShiftValues3();
    forall c: bv16 | 0x30 <= c <= 0x3f
      ensures FcsTab(c) == Shift8(c)
    {
        if c == 0x30 {
        } else if c == 0x31 {
        } else if c == 0x32 {
        } else if c == 0x33 {
        } else if c == 0x34 {
        } else if c == 0x35 {
        } else if c == 0x36 {
        } else if c == 0x37 {
        } else if c == 0x38 {
        } else if c == 0x39 {
        } else if c == 0x3a {
        } else if c == 0x3b {
        } else if c == 0x3c {
        } else if c == 0x3d {
        } else if c == 0x3e {
        } else if c == 0x3f {
        }
    }
  }

  /** Eight reflected shifts of the indices 0x40 to 0x4f, computed. */
  lemma ShiftValues4()
    ensures Shift8(0x40) == 0x4204 &&
      Shift8(0x41) == 0x538d &&
      Shift8(0x42) == 0x6116 &&
      Shift8(0x43) == 0x709f &&
      Shift8(0x44) == 0x0420 &&
      Shift8(0x45) == 0x15a9 &&
      Shift8(0x46) == 0x2732 &&
      Shift8(0x47) == 0x36bb &&
      Shift8(0x48) == 0xce4c &&
      Shift8(0x49) == 0xdfc5 &&
      Shift8(0x4a) == 0xed5e &&
      Shift8(0x4b) == 0xfcd7 &&
      Shift8(0x4c) == 0x8868 &&
      Shift8(0x4d) == 0x99e1 &&
      Shift8(0x4e) == 0xab7a &&
      Shift8(0x4f) == 0xbaf3
  {
  }

  lemma TableRow4()
    ensures forall c: bv16 :: 0x40 <= c <= 0x4f ==> FcsTab(c) == Shift8(c)
  {
    ShiftValues4();
    forall c: bv16 | 0x40 <= c <= 0x4f
      ensures FcsTab(c) == Shift8(c)
    {
        if c == 0x40 {
        } else if c == 0x41 {
        } else if c == 0x42 {
        } else if c == 0x43 {
        } else if c == 0x44 {
        } else if c == 0x45 {
        } else if c == 0x46 {
        } else if c == 0x47 {
        } else if c == 0x48 {
        } else if c == 0x49 {
        } else if c == 0x4a {
        } else if c == 0x4b {
        } else if c == 0x4c {
        } else if c == 0x4d {
        } else if c == 0x4e {
        } else if c == 0x4f {
        }
    }
  }

  /** Eight reflected shifts of the indices 0x50 to 0x5f, computed. */
  lemma ShiftValues5()
    ensures Shift8(0x50) == 0x5285 &&
      Shift8(0x51) == 0x430c &&
      Shift8(0x52) == 0x7197 &&
      Shift8(0x53) == 0x601e &&
      Shift8(0x54) == 0x14a1 &&
      Shift8(0x55) == 0x0528 &&
      Shift8(0x56) == 0x37b3 &&
      Shift8(0x57) == 0x263a &&
      Shift8(0x58) == 0xdecd &&
      Shift8(0x59) == 0xcf44 &&
      Shift8(0x5a) == 0xfddf &&
      Shift8(0x5b) == 0xec56 &&
      Shift8(0x5c) == 0x98e9 &&
      Shift8(0x5d) == 0x8960 &&
      Shift8(0x5e) == 0xbbfb &&
      Shift8(0x5f) == 0xaa72
  {
  }

  lemma TableRow5()
    ensures forall c: bv16 :: 0x50 <= c <= 0x5f ==> FcsTab(c) == Shift8(c)
  {
    ShiftValues5();
    forall c: bv16 | 0x50 <= c <= 0x5f
      ensures FcsTab(c) == Shift8(c)
    {
        if c == 0x50 {
        } else if c == 0x51 {
        } else if c == 0x52 {
        } else if c == 0x53 {
        } else if c == 0x54 {
        } else if c == 0x55 {
        } else if c == 0x56 {
        } else if c == 0x57 {
        } else if c == 0x58 {
        } else if c == 0x59 {
        } else if c == 0x5a {
        } else if c == 0x5b {
        } else if c == 0x5c {
        } else if c == 0x5d {
        } else if c == 0x5e {
        } else if c == 0x5f {
        }
    }
  }

  /** Eight reflected shifts of the indices 0x60 to 0x6f, computed. */
  lemma ShiftValues6()
    ensures Shift8(0x60) == 0x6306 &&
      Shift8(0x61) == 0x728f &&
      Shift8(0x62) == 0x4014 &&
      Shift8(0x63) == 0x519d &&
      Shift8(0x64) == 0x2522 &&
      Shift8(0x65) == 0x34ab &&
      Shift8(0x66) == 0x0630 &&
      Shift8(0x67) == 0x17b9 &&
      Shift8(0x68) == 0xef4e &&
      Shift8(0x69) == 0xfec7 &&
      Shift8(0x6a) == 0xcc5c &&
      Shift8(0x6b) == 0xddd5 &&
      Shift8(0x6c) == 0xa96a &&
      Shift8(0x6d) == 0xb8e3 &&
      Shift8(0x6e) == 0x8a78 &&
      Shift8(0x6f) == 0x9bf1
  {
  }

  lemma TableRow6()
    ensures forall c: bv16 :: 0x60 <= c <= 0x6f ==> FcsTab(c) == Shift8(c)
  {
    ShiftValues6();
    forall c: bv16 | 0x60 <= c <= 0x6f
      ensures FcsTab(c) == Shift8(c)
    {
        if c == 0x60 {
        } else if c == 0x61 {
        } else if c == 0x62 {
        } else if c == 0x63 {
        } else if c == 0x64 {
        } else if c == 0x65 {
        } else if c == 0x66 {
        } else if c == 0x67 {
        } else if c == 0x68 {
        } else if c == 0x69 {
        } else if c == 0x6a {
        } else if c == 0x6b {
        } else if c == 0x6c {
        } else if c == 0x6d {
        } else if c == 0x6e {
        } else if c == 0x6f {
        }
    }
  }

  /** Eight reflected shifts of the indices 0x70 to 0x7f, computed. */
  lemma ShiftValues7()
    ensures Shift8(0x70) == 0x7387 &&
      Shift8(0x71) == 0x620e &&
      Shift8(0x72) == 0x5095 &&
      Shift8(0x73) == 0x411c &&
      Shift8(0x74) == 0x35a3 &&
      Shift8(0x75) == 0x242a &&
      Shift8(0x76) == 0x16b1 &&
      Shift8(0x77) == 0x0738 &&
      Shift8(0x78) == 0xffcf &&
      Shift8(0x79) == 0xee46 &&
      Shift8(0x7a) == 0xdcdd &&
      Shift8(0x7b) == 0xcd54 &&
      Shift8(0x7c) == 0xb9eb &&
      Shift8(0x7d) == 0xa862 &&
      Shift8(0x7e) == 0x9af9 &&
      Shift8(0x7f) == 0x8b70
  {
  }

  lemma TableRow7()
    ensures forall c: bv16 :: 0x70 <= c <= 0x7f ==> FcsTab(c) == Shift8(c)
  {
    ShiftValues7();
    forall c: bv16 | 0x70 <= c <= 0x7f
      ensures FcsTab(c) == Shift8(c)
    {
        if c == 0x70 {
        } else if c == 0x71 {
        } else if c == 0x72 {
        } else if c == 0x73 {
        } else if c == 0x74 {
        } else if c == 0x75 {
        } else if c == 0x76 {
        } else if c == 0x77 {
        } else if c == 0x78 {
        } else if c == 0x79 {
        } else if c == 0x7a {
        } else if c == 0x7b {
        } else if c == 0x7c {
        } else if c == 0x7d {
        } else if c == 0x7e {
        } else if c == 0x7f {
        }
    }
  }

  /** Eight reflected shifts of the indices 0x80 to 0x8f, computed. */
  lemma ShiftValues8()
    ensures Shift8(0x80) == 0x8408 &&
      Shift8(0x81) == 0x9581 &&
      Shift8(0x82) == 0xa71a &&
      Shift8(0x83) == 0xb693 &&
      Shift8(0x84) == 0xc22c &&
      Shift8(0x85) == 0xd3a5 &&
      Shift8(0x86) == 0xe13e &&
      Shift8(0x87) == 0xf0b7 &&
      Shift8(0x88) == 0x0840 &&
      Shift8(0x89) == 0x19c9 &&
      Shift8(0x8a) == 0x2b52 &&
      Shift8(0x8b) == 0x3adb &&
      Shift8(0x8c) == 0x4e64 &&
      Shift8(0x8d) == 0x5fed &&
      Shift8(0x8e) == 0x6d76 &&
      Shift8(0x8f) == 0x7cff
  {
  }

  lemma TableRow8()
    ensures forall c: bv16 :: 0x80 <= c <= 0x8f ==> FcsTab(c) == Shift8(c)
  {
    ShiftValues8();
    forall c: bv16 | 0x80 <= c <= 0x8f
      ensures FcsTab(c) == Shift8(c)
    {
        if c == 0x80 {
        } else if c == 0x81 {
        } else if c == 0x82 {
        } else if c == 0x83 {
        } else if c == 0x84 {
        } else if c == 0x85 {
        } else if c == 0x86 {
        } else if c == 0x87 {
        } else if c == 0x88 {
        } else if c == 0x89 {
        } else if c == 0x8a {
        } else if c == 0x8b {
        } else if c == 0x8c {
        } else if c == 0x8d {
        } else if c == 0x8e {
        } else if c == 0x8f {
        }
    }
  }

  /** Eight reflected shifts of the indices 0x90 to 0x9f, computed. */
  lemma ShiftValues9()
    ensures Shift8(0x90) == 0x9489 &&
      Shift8(0x91) == 0x8500 &&
      Shift8(0x92) == 0xb79b &&
      Shift8(0x93) == 0xa612 &&
      Shift8(0x94) == 0xd2ad &&
      Shift8(0x95) == 0xc324 &&
      Shift8(0x96) == 0xf1bf &&
      Shift8(0x97) == 0xe036 &&
      Shift8(0x98) == 0x18c1 &&
      Shift8(0x99) == 0x0948 &&
      Shift8(0x9a) == 0x3bd3 &&
      Shift8(0x9b) == 0x2a5a &&
      Shift8(0x9c) == 0x5ee5 &&
      Shift8(0x9d) == 0x4f6c &&
      Shift8(0x9e) == 0x7df7 &&
      Shift8(0x9f) == 0x6c7e
  {
  }

  lemma TableRow9()
    ensures forall c: bv16 :: 0x90 <= c <= 0x9f ==> FcsTab(c) == Shift8(c)
  {
    ShiftValues9();
    forall c: bv16 | 0x90 <= c <= 0x9f
      ensures FcsTab(c) == Shift8(c)
    {
        if c == 0x90 {
        } else if c == 0x91 {
        } else if c == 0x92 {
        } else if c == 0x93 {
        } else if c == 0x94 {
        } else if c == 0x95 {
        } else if c == 0x96 {
        } else if c == 0x97 {
        } else if c == 0x98 {
        } else if c == 0x99 {
        } else if c == 0x9a {
        } else if c == 0x9b {
        } else if c == 0x9c {
        } else if c == 0x9d {
        } else if c == 0x9e {
        } else if c == 0x9f {
        }
    }
  }

  /** Eight reflected shifts of the indices 0xa0 to 0xaf, computed. */
  lemma ShiftValuesA()
    ensures Shift8(0xa0) == 0xa50a &&
      Shift8(0xa1) == 0xb483 &&
      Shift8(0xa2) == 0x8618 &&
      Shift8(0xa3) == 0x9791 &&
      Shift8(0xa4) == 0xe32e &&
      Shift8(0xa5) == 0xf2a7 &&
      Shift8(0xa6) == 0xc03c &&
      Shift8(0xa7) == 0xd1b5 &&
      Shift8(0xa8) == 0x2942 &&
      Shift8(0xa9) == 0x38cb &&
      Shift8(0xaa) == 0x0a50 &&
      Shift8(0xab) == 0x1bd9 &&
      Shift8(0xac) == 0x6f66 &&
      Shift8(0xad) == 0x7eef &&
      Shift8(0xae) == 0x4c74 &&
      Shift8(0xaf) == 0x5dfd
  {
  }

  lemma TableRowA()
    ensures forall c: bv16 :: 0xa0 <= c <= 0xaf ==> FcsTab(c) == Shift8(c)
  {
    ShiftValuesA();
    forall c: bv16 | 0xa0 <= c <= 0xaf
      ensures FcsTab(c) == Shift8(c)
    {
        if c == 0xa0 {
        } else if c == 0xa1 {
        } else if c == 0xa2 {
        } else if c == 0xa3 {
        } else if c == 0xa4 {
        } else if c == 0xa5 {
        } else if c == 0xa6 {
        } else if c == 0xa7 {
        } else if c == 0xa8 {
        } else if c == 0xa9 {
        } else if c == 0xaa {
        } else if c == 0xab {
        } else if c == 0xac {
        } else if c == 0xad {
        } else if c == 0xae {
        } else if c == 0xaf {
        }
    }
  }

  /** Eight reflected shifts of the indices 0xb0 to 0xbf, computed. */
  lemma ShiftValuesB()
    ensures Shift8(0xb0) == 0xb58b &&
      Shift8(0xb1) == 0xa402 &&
      Shift8(0xb2) == 0x9699 &&
      Shift8(0xb3) == 0x8710 &&
      Shift8(0xb4) == 0xf3af &&
      Shift8(0xb5) == 0xe226 &&
      Shift8(0xb6) == 0xd0bd &&
      Shift8(0xb7) == 0xc134 &&
      Shift8(0xb8) == 0x39c3 &&
      Shift8(0xb9) == 0x284a &&
      Shift8(0xba) == 0x1ad1 &&
      Shift8(0xbb) == 0x0b58 &&
      Shift8(0xbc) == 0x7fe7 &&
      Shift8(0xbd) == 0x6e6e &&
      Shift8(0xbe) == 0x5cf5 &&
      Shift8(0xbf) == 0x4d7c
  {
  }

  lemma TableRowB()
    ensures forall c: bv16 :: 0xb0 <= c <= 0xbf ==> FcsTab(c) == Shift8(c)
  {
    ShiftValuesB();
    forall c: bv16 | 0xb0 <= c <= 0xbf
      ensures FcsTab(c) == Shift8(c)
    {
        if c == 0xb0 {
        } else if c == 0xb1 {
        } else if c == 0xb2 {
        } else if c == 0xb3 {
        } else if c == 0xb4 {
        } else if c == 0xb5 {
        } else if c == 0xb6 {
        } else if c == 0xb7 {
        } else if c == 0xb8 {
        } else if c == 0xb9 {
        } else if c == 0xba {
        } else if c == 0xbb {
        } else if c == 0xbc {
        } else if c == 0xbd {
        } else if c == 0xbe {
        } else if c == 0xbf {
        }
    }
  }

  /** Eight reflected shifts of the indices 0xc0 to 0xcf, computed. */
  lemma ShiftValuesC()
    ensures Shift8(0xc0) == 0xc60c &&
      Shift8(0xc1) == 0xd785 &&
      Shift8(0xc2) == 0xe51e &&
      Shift8(0xc3) == 0xf497 &&
      Shift8(0xc4) == 0x8028 &&
      Shift8(0xc5) == 0x91a1 &&
      Shift8(0xc6) == 0xa33a &&
      Shift8(0xc7) == 0xb2b3 &&
      Shift8(0xc8) == 0x4a44 &&
      Shift8(0xc9) == 0x5bcd &&
      Shift8(0xca) == 0x6956 &&
      Shift8(0xcb) == 0x78df &&
      Shift8(0xcc) == 0x0c60 &&
      Shift8(0xcd) == 0x1de9 &&
      Shift8(0xce) == 0x2f72 &&
      Shift8(0xcf) == 0x3efb
  {
  }

  lemma TableRowC()
    ensures forall c: bv16 :: 0xc0 <= c <= 0xcf ==> FcsTab(c) == Shift8(c)
  {
    ShiftValuesC();
    forall c: bv16 | 0xc0 <= c <= 0xcf
      ensures FcsTab(c) == Shift8(c)
    {
        if c == 0xc0 {
        } else if c == 0xc1 {
        } else if c == 0xc2 {
        } else if c == 0xc3 {
        } else if c == 0xc4 {
        } else if c == 0xc5 {
        } else if c == 0xc6 {
        } else if c == 0xc7 {
        } else if c == 0xc8 {
        } else if c == 0xc9 {
        } else if c == 0xca {
        } else if c == 0xcb {
        } else if c == 0xcc {
        } else if c == 0xcd {
        } else if c == 0xce {
        } else if c == 0xcf {
        }
    }
  }

  /** Eight reflected shifts of the indices 0xd0 to 0xdf, computed. */
  lemma ShiftValuesD()
    ensures Shift8(0xd0) == 0xd68d &&
      Shift8(0xd1) == 0xc704 &&
      Shift8(0xd2) == 0xf59f &&
      Shift8(0xd3) == 0xe416 &&
      Shift8(0xd4) == 0x90a9 &&
      Shift8(0xd5) == 0x8120 &&
      Shift8(0xd6) == 0xb3bb &&
      Shift8(0xd7) == 0xa232 &&
      Shift8(0xd8) == 0x5ac5 &&
      Shift8(0xd9) == 0x4b4c &&
      Shift8(0xda) == 0x79d7 &&
      Shift8(0xdb) == 0x685e &&
      Shift8(0xdc) == 0x1ce1 &&
      Shift8(0xdd) == 0x0d68 &&
      Shift8(0xde) == 0x3ff3 &&
      Shift8(0xdf) == 0x2e7a
  {
  }

  lemma TableRowD()
    ensures forall c: bv16 :: 0xd0 <= c <= 0xdf ==> FcsTab(c) == Shift8(c)
  {
    ShiftValuesD();
    forall c: bv16 | 0xd0 <= c <= 0xdf
      ensures FcsTab(c) == Shift8(c)
    {
        if c == 0xd0 {
        } else if c == 0xd1 {
        } else if c == 0xd2 {
        } else if c == 0xd3 {
        } else if c == 0xd4 {
        } else if c == 0xd5 {
        } else if c == 0xd6 {
        } else if c == 0xd7 {
        } else if c == 0xd8 {
        } else if c == 0xd9 {
        } else if c == 0xda {
        } else if c == 0xdb {
        } else if c == 0xdc {
        } else if c == 0xdd {
        } else if c == 0xde {
        } else if c == 0xdf {
        }
    }
  }

  /** Eight reflected shifts of the indices 0xe0 to 0xef, computed. */
  lemma ShiftValuesE()
    ensures Shift8(0xe0) == 0xe70e &&
      Shift8(0xe1) == 0xf687 &&
      Shift8(0xe2) == 0xc41c &&
      Shift8(0xe3) == 0xd595 &&
      Shift8(0xe4) == 0xa12a &&
      Shift8(0xe5) == 0xb0a3 &&
      Shift8(0xe6) == 0x8238 &&
      Shift8(0xe7) == 0x93b1 &&
      Shift8(0xe8) == 0x6b46 &&
      Shift8(0xe9) == 0x7acf &&
      Shift8(0xea) == 0x4854 &&
      Shift8(0xeb) == 0x59dd &&
      Shift8(0xec) == 0x2d62 &&
      Shift8(0xed) == 0x3ceb &&
      Shift8(0xee) == 0x0e70 &&
      Shift8(0xef) == 0x1ff9
  {
  }

  lemma TableRowE()
    ensures forall c: bv16 :: 0xe0 <= c <= 0xef ==> FcsTab(c) == Shift8(c)
  {
    ShiftValuesE();
    forall c: bv16 | 0xe0 <= c <= 0xef
      ensures FcsTab(c) == Shift8(c)
    {
        if c == 0xe0 {
        } else if c == 0xe1 {
        } else if c == 0xe2 {
        } else if c == 0xe3 {
        } else if c == 0xe4 {
        } else if c == 0xe5 {
        } else if c == 0xe6 {
        } else if c == 0xe7 {
        } else if c == 0xe8 {
        } else if c == 0xe9 {
        } else if c == 0xea {
        } else if c == 0xeb {
        } else if c == 0xec {
        } else if c == 0xed {
        } else if c == 0xee {
        } else if c == 0xef {
        }
    }
  }

  /** Eight reflected shifts of the indices 0xf0 to 0xff, computed. */
  lemma ShiftValuesF()
    ensures Shift8(0xf0) == 0xf78f &&
      Shift8(0xf1) == 0xe606 &&
      Shift8(0xf2) == 0xd49d &&
      Shift8(0xf3) == 0xc514 &&
      Shift8(0xf4) == 0xb1ab &&
      Shift8(0xf5) == 0xa022 &&
      Shift8(0xf6) == 0x92b9 &&
      Shift8(0xf7) == 0x8330 &&
      Shift8(0xf8) == 0x7bc7 &&
      Shift8(0xf9) == 0x6a4e &&
      Shift8(0xfa) == 0x58d5 &&
      Shift8(0xfb) == 0x495c &&
      Shift8(0xfc) == 0x3de3 &&
      Shift8(0xfd) == 0x2c6a &&
      Shift8(0xfe) == 0x1ef1 &&
      Shift8(0xff) == 0x0f78
  {
  }

  lemma TableRowF()
    ensures forall c: bv16 :: 0xf0 <= c <= 0xff ==> FcsTab(c) == Shift8(c)
  {
    ShiftValuesF();
    forall c: bv16 | 0xf0 <= c <= 0xff
      ensures FcsTab(c) == Shift8(c)
    {
        if c == 0xf0 {
        } else if c == 0xf1 {
        } else if c == 0xf2 {
        } else if c == 0xf3 {
        } else if c == 0xf4 {
        } else if c == 0xf5 {
        } else if c == 0xf6 {
        } else if c == 0xf7 {
        } else if c == 0xf8 {
        } else if c == 0xf9 {
        } else if c == 0xfa {
        } else if c == 0xfb {
        } else if c == 0xfc {
        } else if c == 0xfd {
        } else if c == 0xfe {
        } else if c == 0xff {
        }
    }
  }

  /** Every entry of the source's table is eight reflected shifts of its index. */
  lemma TableIsRfc1662()
    ensures forall c: bv16 :: c < 256 ==> FcsTab(c) == Shift8(c)
  {
    TableRow0(); TableRow1(); TableRow2(); TableRow3();
    TableRow4(); TableRow5(); TableRow6(); TableRow7();
    TableRow8(); TableRow9(); TableRowA(); TableRowB();
    TableRowC(); TableRowD(); TableRowE(); TableRowF();
  }

  // ---------------------------------------------------------------------
  // Linearity of the shift register
  // ---------------------------------------------------------------------

  lemma StepLinear(a: bv16, b: bv16)
    ensures Step(a ^ b) == Step(a) ^ Step(b)
  {
  }

  lemma StepEven(c: bv16)
    requires c & 1 == 0
    ensures Step(c) == c >> 1
  {
  }

  lemma {:induction false} StepsLinear(a: bv16, b: bv16, n: nat)
    ensures Steps(a ^ b, n) == Steps(a, n) ^ Steps(b, n)
  {
    if n > 0 {
      StepsLinear(a, b, n - 1);
      StepLinear(Steps(a, n - 1), Steps(b, n - 1));
    }
  }

  /** A register whose low byte is clear only shifts: no feedback is xored in. */
  lemma Shift8High(h: bv16)
    requires h & 0xff == 0
    ensures Shift8(h) == h >> 8
  {
    StepEven(h);        assert Steps(h, 1) == h >> 1;
    StepEven(h >> 1);   assert Steps(h, 2) == h >> 2;
    StepEven(h >> 2);   assert Steps(h, 3) == h >> 3;
    StepEven(h >> 3);   assert Steps(h, 4) == h >> 4;
    StepEven(h >> 4);   assert Steps(h, 5) == h >> 5;
    StepEven(h >> 5);   assert Steps(h, 6) == h >> 6;
    StepEven(h >> 6);   assert Steps(h, 7) == h >> 7;
    StepEven(h >> 7);   assert Steps(h, 8) == h >> 8;
  }

  /** Eight shifts of a register are the high byte moved down, xored with the table entry of the low byte. */
  lemma ShiftSplits(y: bv16)
    ensures Shift8(y) == (y >> 8) ^ Shift8(y & 0xff)
  {
    var lo, hi := y & 0xff, y & 0xff00;
    assert y == lo ^ hi;
    StepsLinear(lo, hi, 8);
    Shift8High(hi);
    assert hi >> 8 == y >> 8;
  }

  /** Xoring in a value below 256 leaves the high byte of the register alone. */
  lemma HighByteKept(fcs: bv16, x: bv16)
    requires x < 256
    ensures (fcs ^ x) >> 8 == fcs >> 8
  {
  }

  // ---------------------------------------------------------------------
  // genCrc
  // ---------------------------------------------------------------------

  /** The register value `genCrc` starts from. */
  const FCS_INIT: bv16 := 0xffff

  function ByteBits(b: byte): (x: bv16)
    ensures x < 256
  {
    (b as int) as bv16
  }

  /**
   * One byte `x`, promoted to the register's width, folded in by table
   * lookup: the loop body of `genCrc`.
   */
  function FcsUpdate(fcs: bv16, x: bv16): bv16
    requires x < 256
  {
    (fcs >> 8) ^ FcsTab((fcs ^ x) & 0xff)
  }

  /** The register after folding `data`, in order, into `fcs`. */
  function CrcFrom(fcs: bv16, data: seq<byte>): bv16
  {
    if data == [] then fcs else FcsUpdate(CrcFrom(fcs, data[..|data| - 1]), ByteBits(data[|data| - 1]))
  }

  /** `genCrc(saddr, eaddr)` over the bytes `data` of the range [saddr, eaddr). */
  function GenCrc(data: seq<byte>): bv16
  {
    CrcFrom(FCS_INIT, data)
  }

  /** The bit-at-a-time reference: each byte is xored in and shifted through eight times. */
  function BitwiseCrcFrom(fcs: bv16, data: seq<byte>): bv16
  {
    if data == [] then fcs
    else Shift8(BitwiseCrcFrom(fcs, data[..|data| - 1]) ^ ByteBits(data[|data| - 1]))
  }

  /**
   * `genCrc` over the memory `mem` from the address `saddr` up to, not
   * including, `eaddr`. Every caller passes the start and the end of one
   * object, so `saddr <= eaddr`.
   */
  method GenCrcRange(mem: array<byte>, saddr: nat, eaddr: nat) returns (fcs: bv16)
    requires saddr <= eaddr <= mem.Length
    ensures fcs == GenCrc(mem[saddr..eaddr])
  {
    ghost var s := mem[..];
    assert s[saddr..saddr] == [];
    fcs := FCS_INIT;
    var cp := saddr;
    while cp < eaddr
      invariant saddr <= cp <= eaddr
      invariant fcs == GenCrc(s[saddr..cp])
    {
      fcs := UpdateStep(s, saddr, cp, fcs, mem[cp]);
      cp := cp + 1;
    }
    assert mem[saddr..eaddr] == s[saddr..eaddr];
  }

  /** One pass of `genCrc`'s loop, at the byte `s[hi]`. */
  method UpdateStep(ghost s: seq<byte>, lo: nat, hi: nat, fcs: bv16, b: byte) returns (r: bv16)
    requires lo <= hi < |s| && fcs == GenCrc(s[lo..hi]) && b == s[hi]
    ensures r == GenCrc(s[lo..hi + 1])
  {
    GenCrcExtend(s, lo, hi);
    r := FcsUpdate(fcs, ByteBits(b));
  }

  /** Widening the range by one byte is one more loop body. */
  lemma GenCrcExtend(s: seq<byte>, lo: nat, hi: nat)
    requires lo <= hi < |s|
    ensures GenCrc(s[lo..hi + 1]) == FcsUpdate(GenCrc(s[lo..hi]), ByteBits(s[hi]))
  {
    assert s[lo..hi + 1] == s[lo..hi] + [s[hi]];
    CrcSnoc(FCS_INIT, s[lo..hi], s[hi]);
  }

  /** Folding one more byte is one more loop body. */
  lemma CrcSnoc(fcs: bv16, data: seq<byte>, b: byte)
    ensures CrcFrom(fcs, data + [b]) == FcsUpdate(CrcFrom(fcs, data), ByteBits(b))
  {
    assert (data + [b])[..|data|] == data;
  }

  /** Folding a concatenation continues the fold from the first part's register. */
  lemma {:induction false} CrcAppend(fcs: bv16, a: seq<byte>, b: seq<byte>)
    ensures CrcFrom(fcs, a + b) == CrcFrom(CrcFrom(fcs, a), b)
    decreases |b|
  {
    if b == [] {
      assert a + b == a;
    } else {
      assert (a + b)[..|a + b| - 1] == a + b[..|b| - 1];
      CrcAppend(fcs, a, b[..|b| - 1]);
    }
  }

  lemma ShiftUpdate(fcs: bv16, x: bv16)
    requires x < 256
    ensures (fcs >> 8) ^ Shift8((fcs ^ x) & 0xff) == Shift8(fcs ^ x)
  {
    HighByteKept(fcs, x);
    ShiftSplits(fcs ^ x);
  }

  /** One table lookup does the work of eight reflected shifts of the register with the byte xored in. */
  lemma UpdateIsBitwise(fcs: bv16, x: bv16)
    requires x < 256
    ensures FcsUpdate(fcs, x) == Shift8(fcs ^ x)
  {
    TableEntry((fcs ^ x) & 0xff);
    ShiftUpdate(fcs, x);
  }

  lemma TableEntry(c: bv16)
    requires c < 256
    ensures FcsTab(c) == Shift8(c)
  {
    TableIsRfc1662();
  }

  /** The table-driven fold computes the bit-at-a-time FCS-16 of RFC 1662. */
  lemma {:induction false} CrcIsBitwise(fcs: bv16, data: seq<byte>)
    ensures CrcFrom(fcs, data) == BitwiseCrcFrom(fcs, data)
    decreases |data|
  {
    if data != [] {
      CrcIsBitwise(fcs, data[..|data| - 1]);
      UpdateIsBitwise(CrcFrom(fcs, data[..|data| - 1]), ByteBits(data[|data| - 1]));
    }
  }
}
