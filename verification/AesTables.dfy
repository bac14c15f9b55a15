/**
 The constant tables of the AES routines, as functions of the byte that indexes them.

 Each table is written as a decision tree over the bits of its index, most significant
 bit first, so the leaves read in table order, four entries a line. In this form a
 statement about every entry of a table is a statement about eight bits.
 */
module AesTables {

  /** Forward S-box. */
  function FSb(x: bv8): bv8 {
    var b7, b6, b5, b4 := x & 0x80 != 0, x & 0x40 != 0, x & 0x20 != 0, x & 0x10 != 0;
    var b3, b2, b1, b0 := x & 0x08 != 0, x & 0x04 != 0, x & 0x02 != 0, x & 0x01 != 0;
    if !b7 then
      if !b6 then
        if !b5 then
          if !b4 then
            if !b3 then
              if !b2 then
                if !b1 then if !b0 then 0x63 else 0x7C else if !b0 then 0x77 else 0x7B
              else
                if !b1 then if !b0 then 0xF2 else 0x6B else if !b0 then 0x6F else 0xC5
            else
              if !b2 then
                if !b1 then if !b0 then 0x30 else 0x01 else if !b0 then 0x67 else 0x2B
              else
                if !b1 then if !b0 then 0xFE else 0xD7 else if !b0 then 0xAB else 0x76
          else
            if !b3 then
              if !b2 then
                if !b1 then if !b0 then 0xCA else 0x82 else if !b0 then 0xC9 else 0x7D
              else
                if !b1 then if !b0 then 0xFA else 0x59 else if !b0 then 0x47 else 0xF0
            else
              if !b2 then
                if !b1 then if !b0 then 0xAD else 0xD4 else if !b0 then 0xA2 else 0xAF
              else
                if !b1 then if !b0 then 0x9C else 0xA4 else if !b0 then 0x72 else 0xC0
        else
          if !b4 then
            if !b3 then
              if !b2 then
                if !b1 then if !b0 then 0xB7 else 0xFD else if !b0 then 0x93 else 0x26
              else
                if !b1 then if !b0 then 0x36 else 0x3F else if !b0 then 0xF7 else 0xCC
            else
              if !b2 then
                if !b1 then if !b0 then 0x34 else 0xA5 else if !b0 then 0xE5 else 0xF1
              else
                if !b1 then if !b0 then 0x71 else 0xD8 else if !b0 then 0x31 else 0x15
          else
            if !b3 then
              if !b2 then
                if !b1 then if !b0 then 0x04 else 0xC7 else if !b0 then 0x23 else 0xC3
              else
                if !b1 then if !b0 then 0x18 else 0x96 else if !b0 then 0x05 else 0x9A
            else
              if !b2 then
                if !b1 then if !b0 then 0x07 else 0x12 else if !b0 then 0x80 else 0xE2
              else
                if !b1 then if !b0 then 0xEB else 0x27 else if !b0 then 0xB2 else 0x75
      else
        if !b5 then
          if !b4 then
            if !b3 then
              if !b2 then
                if !b1 then if !b0 then 0x09 else 0x83 else if !b0 then 0x2C else 0x1A
              else
                if !b1 then if !b0 then 0x1B else 0x6E else if !b0 then 0x5A else 0xA0
            else
              if !b2 then
                if !b1 then if !b0 then 0x52 else 0x3B else if !b0 then 0xD6 else 0xB3
              else
                if !b1 then if !b0 then 0x29 else 0xE3 else if !b0 then 0x2F else 0x84
          else
            if !b3 then
              if !b2 then
                if !b1 then if !b0 then 0x53 else 0xD1 else if !b0 then 0x00 else 0xED
              else
                if !b1 then if !b0 then 0x20 else 0xFC else if !b0 then 0xB1 else 0x5B
            else
              if !b2 then
                if !b1 then if !b0 then 0x6A else 0xCB else if !b0 then 0xBE else 0x39
              else
                if !b1 then if !b0 then 0x4A else 0x4C else if !b0 then 0x58 else 0xCF
        else
          if !b4 then
            if !b3 then
              if !b2 then
                if !b1 then if !b0 then 0xD0 else 0xEF else if !b0 then 0xAA else 0xFB
              else
                if !b1 then if !b0 then 0x43 else 0x4D else if !b0 then 0x33 else 0x85
            else
              if !b2 then
                if !b1 then if !b0 then 0x45 else 0xF9 else if !b0 then 0x02 else 0x7F
              else
                if !b1 then if !b0 then 0x50 else 0x3C else if !b0 then 0x9F else 0xA8
          else
            if !b3 then
              if !b2 then
                if !b1 then if !b0 then 0x51 else 0xA3 else if !b0 then 0x40 else 0x8F
              else
                if !b1 then if !b0 then 0x92 else 0x9D else if !b0 then 0x38 else 0xF5
            else
              if !b2 then
                if !b1 then if !b0 then 0xBC else 0xB6 else if !b0 then 0xDA else 0x21
              else
                if !b1 then if !b0 then 0x10 else 0xFF else if !b0 then 0xF3 else 0xD2
    else
      if !b6 then
        if !b5 then
          if !b4 then
            if !b3 then
              if !b2 then
                if !b1 then if !b0 then 0xCD else 0x0C else if !b0 then 0x13 else 0xEC
              else
                if !b1 then if !b0 then 0x5F else 0x97 else if !b0 then 0x44 else 0x17
            else
              if !b2 then
                if !b1 then if !b0 then 0xC4 else 0xA7 else if !b0 then 0x7E else 0x3D
              else
                if !b1 then if !b0 then 0x64 else 0x5D else if !b0 then 0x19 else 0x73
          else
            if !b3 then
              if !b2 then
                if !b1 then if !b0 then 0x60 else 0x81 else if !b0 then 0x4F else 0xDC
              else
                if !b1 then if !b0 then 0x22 else 0x2A else if !b0 then 0x90 else 0x88
            else
              if !b2 then
                if !b1 then if !b0 then 0x46 else 0xEE else if !b0 then 0xB8 else 0x14
              else
                if !b1 then if !b0 then 0xDE else 0x5E else if !b0 then 0x0B else 0xDB
        else
          if !b4 then
            if !b3 then
              if !b2 then
                if !b1 then if !b0 then 0xE0 else 0x32 else if !b0 then 0x3A else 0x0A
              else
                if !b1 then if !b0 then 0x49 else 0x06 else if !b0 then 0x24 else 0x5C
            else
              if !b2 then
                if !b1 then if !b0 then 0xC2 else 0xD3 else if !b0 then 0xAC else 0x62
              else
                if !b1 then if !b0 then 0x91 else 0x95 else if !b0 then 0xE4 else 0x79
          else
            if !b3 then
              if !b2 then
                if !b1 then if !b0 then 0xE7 else 0xC8 else if !b0 then 0x37 else 0x6D
              else
                if !b1 then if !b0 then 0x8D else 0xD5 else if !b0 then 0x4E else 0xA9
            else
              if !b2 then
                if !b1 then if !b0 then 0x6C else 0x56 else if !b0 then 0xF4 else 0xEA
              else
                if !b1 then if !b0 then 0x65 else 0x7A else if !b0 then 0xAE else 0x08
      else
        if !b5 then
          if !b4 then
            if !b3 then
              if !b2 then
                if !b1 then if !b0 then 0xBA else 0x78 else if !b0 then 0x25 else 0x2E
              else
                if !b1 then if !b0 then 0x1C else 0xA6 else if !b0 then 0xB4 else 0xC6
            else
              if !b2 then
                if !b1 then if !b0 then 0xE8 else 0xDD else if !b0 then 0x74 else 0x1F
              else
                if !b1 then if !b0 then 0x4B else 0xBD else if !b0 then 0x8B else 0x8A
          else
            if !b3 then
              if !b2 then
                if !b1 then if !b0 then 0x70 else 0x3E else if !b0 then 0xB5 else 0x66
              else
                if !b1 then if !b0 then 0x48 else 0x03 else if !b0 then 0xF6 else 0x0E
            else
              if !b2 then
                if !b1 then if !b0 then 0x61 else 0x35 else if !b0 then 0x57 else 0xB9
              else
                if !b1 then if !b0 then 0x86 else 0xC1 else if !b0 then 0x1D else 0x9E
        else
          if !b4 then
            if !b3 then
              if !b2 then
                if !b1 then if !b0 then 0xE1 else 0xF8 else if !b0 then 0x98 else 0x11
              else
                if !b1 then if !b0 then 0x69 else 0xD9 else if !b0 then 0x8E else 0x94
            else
              if !b2 then
                if !b1 then if !b0 then 0x9B else 0x1E else if !b0 then 0x87 else 0xE9
              else
                if !b1 then if !b0 then 0xCE else 0x55 else if !b0 then 0x28 else 0xDF
          else
            if !b3 then
              if !b2 then
                if !b1 then if !b0 then 0x8C else 0xA1 else if !b0 then 0x89 else 0x0D
              else
                if !b1 then if !b0 then 0xBF else 0xE6 else if !b0 then 0x42 else 0x68
            else
              if !b2 then
                if !b1 then if !b0 then 0x41 else 0x99 else if !b0 then 0x2D else 0x0F
              else
                if !b1 then if !b0 then 0xB0 else 0x54 else if !b0 then 0xBB else 0x16
  }

  /** Reverse S-box. */
  function RSb(x: bv8): bv8 {
    var b7, b6, b5, b4 := x & 0x80 != 0, x & 0x40 != 0, x & 0x20 != 0, x & 0x10 != 0;
    var b3, b2, b1, b0 := x & 0x08 != 0, x & 0x04 != 0, x & 0x02 != 0, x & 0x01 != 0;
    if !b7 then
      if !b6 then
        if !b5 then
          if !b4 then
            if !b3 then
              if !b2 then
                if !b1 then if !b0 then 0x52 else 0x09 else if !b0 then 0x6A else 0xD5
              else
                if !b1 then if !b0 then 0x30 else 0x36 else if !b0 then 0xA5 else 0x38
            else
              if !b2 then
                if !b1 then if !b0 then 0xBF else 0x40 else if !b0 then 0xA3 else 0x9E
              else
                if !b1 then if !b0 then 0x81 else 0xF3 else if !b0 then 0xD7 else 0xFB
          else
            if !b3 then
              if !b2 then
                if !b1 then if !b0 then 0x7C else 0xE3 else if !b0 then 0x39 else 0x82
              else
                if !b1 then if !b0 then 0x9B else 0x2F else if !b0 then 0xFF else 0x87
            else
              if !b2 then
                if !b1 then if !b0 then 0x34 else 0x8E else if !b0 then 0x43 else 0x44
              else
                if !b1 then if !b0 then 0xC4 else 0xDE else if !b0 then 0xE9 else 0xCB
        else
          if !b4 then
            if !b3 then
              if !b2 then
                if !b1 then if !b0 then 0x54 else 0x7B else if !b0 then 0x94 else 0x32
              else
                if !b1 then if !b0 then 0xA6 else 0xC2 else if !b0 then 0x23 else 0x3D
            else
              if !b2 then
                if !b1 then if !b0 then 0xEE else 0x4C else if !b0 then 0x95 else 0x0B
              else
                if !b1 then if !b0 then 0x42 else 0xFA else if !b0 then 0xC3 else 0x4E
          else
            if !b3 then
              if !b2 then
                if !b1 then if !b0 then 0x08 else 0x2E else if !b0 then 0xA1 else 0x66
              else
                if !b1 then if !b0 then 0x28 else 0xD9 else if !b0 then 0x24 else 0xB2
            else
              if !b2 then
                if !b1 then if !b0 then 0x76 else 0x5B else if !b0 then 0xA2 else 0x49
              else
                if !b1 then if !b0 then 0x6D else 0x8B else if !b0 then 0xD1 else 0x25
      else
        if !b5 then
          if !b4 then
            if !b3 then
              if !b2 then
                if !b1 then if !b0 then 0x72 else 0xF8 else if !b0 then 0xF6 else 0x64
              else
                if !b1 then if !b0 then 0x86 else 0x68 else if !b0 then 0x98 else 0x16
            else
              if !b2 then
                if !b1 then if !b0 then 0xD4 else 0xA4 else if !b0 then 0x5C else 0xCC
              else
                if !b1 then if !b0 then 0x5D else 0x65 else if !b0 then 0xB6 else 0x92
          else
            if !b3 then
              if !b2 then
                if !b1 then if !b0 then 0x6C else 0x70 else if !b0 then 0x48 else 0x50
              else
                if !b1 then if !b0 then 0xFD else 0xED else if !b0 then 0xB9 else 0xDA
            else
              if !b2 then
                if !b1 then if !b0 then 0x5E else 0x15 else if !b0 then 0x46 else 0x57
              else
                if !b1 then if !b0 then 0xA7 else 0x8D else if !b0 then 0x9D else 0x84
        else
          if !b4 then
            if !b3 then
              if !b2 then
                if !b1 then if !b0 then 0x90 else 0xD8 else if !b0 then 0xAB else 0x00
              else
                if !b1 then if !b0 then 0x8C else 0xBC else if !b0 then 0xD3 else 0x0A
            else
              if !b2 then
                if !b1 then if !b0 then 0xF7 else 0xE4 else if !b0 then 0x58 else 0x05
              else
                if !b1 then if !b0 then 0xB8 else 0xB3 else if !b0 then 0x45 else 0x06
          else
            if !b3 then
              if !b2 then
                if !b1 then if !b0 then 0xD0 else 0x2C else if !b0 then 0x1E else 0x8F
              else
                if !b1 then if !b0 then 0xCA else 0x3F else if !b0 then 0x0F else 0x02
            else
              if !b2 then
                if !b1 then if !b0 then 0xC1 else 0xAF else if !b0 then 0xBD else 0x03
              else
                if !b1 then if !b0 then 0x01 else 0x13 else if !b0 then 0x8A else 0x6B
    else
      if !b6 then
        if !b5 then
          if !b4 then
            if !b3 then
              if !b2 then
                if !b1 then if !b0 then 0x3A else 0x91 else if !b0 then 0x11 else 0x41
              else
                if !b1 then if !b0 then 0x4F else 0x67 else if !b0 then 0xDC else 0xEA
            else
              if !b2 then
                if !b1 then if !b0 then 0x97 else 0xF2 else if !b0 then 0xCF else 0xCE
              else
                if !b1 then if !b0 then 0xF0 else 0xB4 else if !b0 then 0xE6 else 0x73
          else
            if !b3 then
              if !b2 then
                if !b1 then if !b0 then 0x96 else 0xAC else if !b0 then 0x74 else 0x22
              else
                if !b1 then if !b0 then 0xE7 else 0xAD else if !b0 then 0x35 else 0x85
            else
              if !b2 then
                if !b1 then if !b0 then 0xE2 else 0xF9 else if !b0 then 0x37 else 0xE8
              else
                if !b1 then if !b0 then 0x1C else 0x75 else if !b0 then 0xDF else 0x6E
        else
          if !b4 then
            if !b3 then
              if !b2 then
                if !b1 then if !b0 then 0x47 else 0xF1 else if !b0 then 0x1A else 0x71
              else
                if !b1 then if !b0 then 0x1D else 0x29 else if !b0 then 0xC5 else 0x89
            else
              if !b2 then
                if !b1 then if !b0 then 0x6F else 0xB7 else if !b0 then 0x62 else 0x0E
              else
                if !b1 then if !b0 then 0xAA else 0x18 else if !b0 then 0xBE else 0x1B
          else
            if !b3 then
              if !b2 then
                if !b1 then if !b0 then 0xFC else 0x56 else if !b0 then 0x3E else 0x4B
              else
                if !b1 then if !b0 then 0xC6 else 0xD2 else if !b0 then 0x79 else 0x20
            else
              if !b2 then
                if !b1 then if !b0 then 0x9A else 0xDB else if !b0 then 0xC0 else 0xFE
              else
                if !b1 then if !b0 then 0x78 else 0xCD else if !b0 then 0x5A else 0xF4
      else
        if !b5 then
          if !b4 then
            if !b3 then
              if !b2 then
                if !b1 then if !b0 then 0x1F else 0xDD else if !b0 then 0xA8 else 0x33
              else
                if !b1 then if !b0 then 0x88 else 0x07 else if !b0 then 0xC7 else 0x31
            else
              if !b2 then
                if !b1 then if !b0 then 0xB1 else 0x12 else if !b0 then 0x10 else 0x59
              else
                if !b1 then if !b0 then 0x27 else 0x80 else if !b0 then 0xEC else 0x5F
          else
            if !b3 then
              if !b2 then
                if !b1 then if !b0 then 0x60 else 0x51 else if !b0 then 0x7F else 0xA9
              else
                if !b1 then if !b0 then 0x19 else 0xB5 else if !b0 then 0x4A else 0x0D
            else
              if !b2 then
                if !b1 then if !b0 then 0x2D else 0xE5 else if !b0 then 0x7A else 0x9F
              else
                if !b1 then if !b0 then 0x93 else 0xC9 else if !b0 then 0x9C else 0xEF
        else
          if !b4 then
            if !b3 then
              if !b2 then
                if !b1 then if !b0 then 0xA0 else 0xE0 else if !b0 then 0x3B else 0x4D
              else
                if !b1 then if !b0 then 0xAE else 0x2A else if !b0 then 0xF5 else 0xB0
            else
              if !b2 then
                if !b1 then if !b0 then 0xC8 else 0xEB else if !b0 then 0xBB else 0x3C
              else
                if !b1 then if !b0 then 0x83 else 0x53 else if !b0 then 0x99 else 0x61
          else
            if !b3 then
              if !b2 then
                if !b1 then if !b0 then 0x17 else 0x2B else if !b0 then 0x04 else 0x7E
              else
                if !b1 then if !b0 then 0xBA else 0x77 else if !b0 then 0xD6 else 0x26
            else
              if !b2 then
                if !b1 then if !b0 then 0xE1 else 0x69 else if !b0 then 0x14 else 0x63
              else
                if !b1 then if !b0 then 0x55 else 0x21 else if !b0 then 0x0C else 0x7D
  }

  /** Forward table: the entries V(a,b,c,d) spelled as the word abcd. */
  function FT0(x: bv8): bv32 {
    var b7, b6, b5, b4 := x & 0x80 != 0, x & 0x40 != 0, x & 0x20 != 0, x & 0x10 != 0;
    var b3, b2, b1, b0 := x & 0x08 != 0, x & 0x04 != 0, x & 0x02 != 0, x & 0x01 != 0;
    if !b7 then
      if !b6 then
        if !b5 then
          if !b4 then
            if !b3 then
              if !b2 then
                if !b1 then if !b0 then 0xC66363A5 else 0xF87C7C84 else if !b0 then 0xEE777799 else 0xF67B7B8D
              else
                if !b1 then if !b0 then 0xFFF2F20D else 0xD66B6BBD else if !b0 then 0xDE6F6FB1 else 0x91C5C554
            else
              if !b2 then
                if !b1 then if !b0 then 0x60303050 else 0x02010103 else if !b0 then 0xCE6767A9 else 0x562B2B7D
              else
                if !b1 then if !b0 then 0xE7FEFE19 else 0xB5D7D762 else if !b0 then 0x4DABABE6 else 0xEC76769A
          else
            if !b3 then
              if !b2 then
                if !b1 then if !b0 then 0x8FCACA45 else 0x1F82829D else if !b0 then 0x89C9C940 else 0xFA7D7D87
              else
                if !b1 then if !b0 then 0xEFFAFA15 else 0xB25959EB else if !b0 then 0x8E4747C9 else 0xFBF0F00B
            else
              if !b2 then
                if !b1 then if !b0 then 0x41ADADEC else 0xB3D4D467 else if !b0 then 0x5FA2A2FD else 0x45AFAFEA
              else
                if !b1 then if !b0 then 0x239C9CBF else 0x53A4A4F7 else if !b0 then 0xE4727296 else 0x9BC0C05B
        else
          if !b4 then
            if !b3 then
              if !b2 then
                if !b1 then if !b0 then 0x75B7B7C2 else 0xE1FDFD1C else if !b0 then 0x3D9393AE else 0x4C26266A
              else
                if !b1 then if !b0 then 0x6C36365A else 0x7E3F3F41 else if !b0 then 0xF5F7F702 else 0x83CCCC4F
            else
              if !b2 then
                if !b1 then if !b0 then 0x6834345C else 0x51A5A5F4 else if !b0 then 0xD1E5E534 else 0xF9F1F108
              else
                if !b1 then if !b0 then 0xE2717193 else 0xABD8D873 else if !b0 then 0x62313153 else 0x2A15153F
          else
            if !b3 then
              if !b2 then
                if !b1 then if !b0 then 0x0804040C else 0x95C7C752 else if !b0 then 0x46232365 else 0x9DC3C35E
              else
                if !b1 then if !b0 then 0x30181828 else 0x379696A1 else if !b0 then 0x0A05050F else 0x2F9A9AB5
            else
              if !b2 then
                if !b1 then if !b0 then 0x0E070709 else 0x24121236 else if !b0 then 0x1B80809B else 0xDFE2E23D
              else
                if !b1 then if !b0 then 0xCDEBEB26 else 0x4E272769 else if !b0 then 0x7FB2B2CD else 0xEA75759F
      else
        if !b5 then
          if !b4 then
            if !b3 then
              if !b2 then
                if !b1 then if !b0 then 0x1209091B else 0x1D83839E else if !b0 then 0x582C2C74 else 0x341A1A2E
              else
                if !b1 then if !b0 then 0x361B1B2D else 0xDC6E6EB2 else if !b0 then 0xB45A5AEE else 0x5BA0A0FB
            else
              if !b2 then
                if !b1 then if !b0 then 0xA45252F6 else 0x763B3B4D else if !b0 then 0xB7D6D661 else 0x7DB3B3CE
              else
                if !b1 then if !b0 then 0x5229297B else 0xDDE3E33E else if !b0 then 0x5E2F2F71 else 0x13848497
          else
            if !b3 then
              if !b2 then
                if !b1 then if !b0 then 0xA65353F5 else 0xB9D1D168 else if !b0 then 0x00000000 else 0xC1EDED2C
              else
                if !b1 then if !b0 then 0x40202060 else 0xE3FCFC1F else if !b0 then 0x79B1B1C8 else 0xB65B5BED
            else
              if !b2 then
                if !b1 then if !b0 then 0xD46A6ABE else 0x8DCBCB46 else if !b0 then 0x67BEBED9 else 0x7239394B
              else
                if !b1 then if !b0 then 0x944A4ADE else 0x984C4CD4 else if !b0 then 0xB05858E8 else 0x85CFCF4A
        else
          if !b4 then
            if !b3 then
              if !b2 then
                if !b1 then if !b0 then 0xBBD0D06B else 0xC5EFEF2A else if !b0 then 0x4FAAAAE5 else 0xEDFBFB16
              else
                if !b1 then if !b0 then 0x864343C5 else 0x9A4D4DD7 else if !b0 then 0x66333355 else 0x11858594
            else
              if !b2 then
                if !b1 then if !b0 then 0x8A4545CF else 0xE9F9F910 else if !b0 then 0x04020206 else 0xFE7F7F81
              else
                if !b1 then if !b0 then 0xA05050F0 else 0x783C3C44 else if !b0 then 0x259F9FBA else 0x4BA8A8E3
          else
            if !b3 then
              if !b2 then
                if !b1 then if !b0 then 0xA25151F3 else 0x5DA3A3FE else if !b0 then 0x804040C0 else 0x058F8F8A
              else
                if !b1 then if !b0 then 0x3F9292AD else 0x219D9DBC else if !b0 then 0x70383848 else 0xF1F5F504
            else
              if !b2 then
                if !b1 then if !b0 then 0x63BCBCDF else 0x77B6B6C1 else if !b0 then 0xAFDADA75 else 0x42212163
              else
                if !b1 then if !b0 then 0x20101030 else 0xE5FFFF1A else if !b0 then 0xFDF3F30E else 0xBFD2D26D
    else
      if !b6 then
        if !b5 then
          if !b4 then
            if !b3 then
              if !b2 then
                if !b1 then if !b0 then 0x81CDCD4C else 0x180C0C14 else if !b0 then 0x26131335 else 0xC3ECEC2F
              else
                if !b1 then if !b0 then 0xBE5F5FE1 else 0x359797A2 else if !b0 then 0x884444CC else 0x2E171739
            else
              if !b2 then
                if !b1 then if !b0 then 0x93C4C457 else 0x55A7A7F2 else if !b0 then 0xFC7E7E82 else 0x7A3D3D47
              else
                if !b1 then if !b0 then 0xC86464AC else 0xBA5D5DE7 else if !b0 then 0x3219192B else 0xE6737395
          else
            if !b3 then
              if !b2 then
                if !b1 then if !b0 then 0xC06060A0 else 0x19818198 else if !b0 then 0x9E4F4FD1 else 0xA3DCDC7F
              else
                if !b1 then if !b0 then 0x44222266 else 0x542A2A7E else if !b0 then 0x3B9090AB else 0x0B888883
            else
              if !b2 then
                if !b1 then if !b0 then 0x8C4646CA else 0xC7EEEE29 else if !b0 then 0x6BB8B8D3 else 0x2814143C
              else
                if !b1 then if !b0 then 0xA7DEDE79 else 0xBC5E5EE2 else if !b0 then 0x160B0B1D else 0xADDBDB76
        else
          if !b4 then
            if !b3 then
              if !b2 then
                if !b1 then if !b0 then 0xDBE0E03B else 0x64323256 else if !b0 then 0x743A3A4E else 0x140A0A1E
              else
                if !b1 then if !b0 then 0x924949DB else 0x0C06060A else if !b0 then 0x4824246C else 0xB85C5CE4
            else
              if !b2 then
                if !b1 then if !b0 then 0x9FC2C25D else 0xBDD3D36E else if !b0 then 0x43ACACEF else 0xC46262A6
              else
                if !b1 then if !b0 then 0x399191A8 else 0x319595A4 else if !b0 then 0xD3E4E437 else 0xF279798B
          else
            if !b3 then
              if !b2 then
                if !b1 then if !b0 then 0xD5E7E732 else 0x8BC8C843 else if !b0 then 0x6E373759 else 0xDA6D6DB7
              else
                if !b1 then if !b0 then 0x018D8D8C else 0xB1D5D564 else if !b0 then 0x9C4E4ED2 else 0x49A9A9E0
            else
              if !b2 then
                if !b1 then if !b0 then 0xD86C6CB4 else 0xAC5656FA else if !b0 then 0xF3F4F407 else 0xCFEAEA25
              else
                if !b1 then if !b0 then 0xCA6565AF else 0xF47A7A8E else if !b0 then 0x47AEAEE9 else 0x10080818
      else
        if !b5 then
          if !b4 then
            if !b3 then
              if !b2 then
                if !b1 then if !b0 then 0x6FBABAD5 else 0xF0787888 else if !b0 then 0x4A25256F else 0x5C2E2E72
              else
                if !b1 then if !b0 then 0x381C1C24 else 0x57A6A6F1 else if !b0 then 0x73B4B4C7 else 0x97C6C651
            else
              if !b2 then
                if !b1 then if !b0 then 0xCBE8E823 else 0xA1DDDD7C else if !b0 then 0xE874749C else 0x3E1F1F21
              else
                if !b1 then if !b0 then 0x964B4BDD else 0x61BDBDDC else if !b0 then 0x0D8B8B86 else 0x0F8A8A85
          else
            if !b3 then
              if !b2 then
                if !b1 then if !b0 then 0xE0707090 else 0x7C3E3E42 else if !b0 then 0x71B5B5C4 else 0xCC6666AA
              else
                if !b1 then if !b0 then 0x904848D8 else 0x06030305 else if !b0 then 0xF7F6F601 else 0x1C0E0E12
            else
              if !b2 then
                if !b1 then if !b0 then 0xC26161A3 else 0x6A35355F else if !b0 then 0xAE5757F9 else 0x69B9B9D0
              else
                if !b1 then if !b0 then 0x17868691 else 0x99C1C158 else if !b0 then 0x3A1D1D27 else 0x279E9EB9
        else
          if !b4 then
            if !b3 then
              if !b2 then
                if !b1 then if !b0 then 0xD9E1E138 else 0xEBF8F813 else if !b0 then 0x2B9898B3 else 0x22111133
              else
                if !b1 then if !b0 then 0xD26969BB else 0xA9D9D970 else if !b0 then 0x078E8E89 else 0x339494A7
            else
              if !b2 then
                if !b1 then if !b0 then 0x2D9B9BB6 else 0x3C1E1E22 else if !b0 then 0x15878792 else 0xC9E9E920
              else
                if !b1 then if !b0 then 0x87CECE49 else 0xAA5555FF else if !b0 then 0x50282878 else 0xA5DFDF7A
          else
            if !b3 then
              if !b2 then
                if !b1 then if !b0 then 0x038C8C8F else 0x59A1A1F8 else if !b0 then 0x09898980 else 0x1A0D0D17
              else
                if !b1 then if !b0 then 0x65BFBFDA else 0xD7E6E631 else if !b0 then 0x844242C6 else 0xD06868B8
            else
              if !b2 then
                if !b1 then if !b0 then 0x824141C3 else 0x299999B0 else if !b0 then 0x5A2D2D77 else 0x1E0F0F11
              else
                if !b1 then if !b0 then 0x7BB0B0CB else 0xA85454FC else if !b0 then 0x6DBBBBD6 else 0x2C16163A
  }

  /** Reverse table: the entries V(a,b,c,d) spelled as the word abcd. */
  function RT0(x: bv8): bv32 {
    var b7, b6, b5, b4 := x & 0x80 != 0, x & 0x40 != 0, x & 0x20 != 0, x & 0x10 != 0;
    var b3, b2, b1, b0 := x & 0x08 != 0, x & 0x04 != 0, x & 0x02 != 0, x & 0x01 != 0;
    if !b7 then
      if !b6 then
        if !b5 then
          if !b4 then
            if !b3 then
              if !b2 then
                if !b1 then if !b0 then 0x51F4A750 else 0x7E416553 else if !b0 then 0x1A17A4C3 else 0x3A275E96
              else
                if !b1 then if !b0 then 0x3BAB6BCB else 0x1F9D45F1 else if !b0 then 0xACFA58AB else 0x4BE30393
            else
              if !b2 then
                if !b1 then if !b0 then 0x2030FA55 else 0xAD766DF6 else if !b0 then 0x88CC7691 else 0xF5024C25
              else
                if !b1 then if !b0 then 0x4FE5D7FC else 0xC52ACBD7 else if !b0 then 0x26354480 else 0xB562A38F
          else
            if !b3 then
              if !b2 then
                if !b1 then if !b0 then 0xDEB15A49 else 0x25BA1B67 else if !b0 then 0x45EA0E98 else 0x5DFEC0E1
              else
                if !b1 then if !b0 then 0xC32F7502 else 0x814CF012 else if !b0 then 0x8D4697A3 else 0x6BD3F9C6
            else
              if !b2 then
                if !b1 then if !b0 then 0x038F5FE7 else 0x15929C95 else if !b0 then 0xBF6D7AEB else 0x955259DA
              else
                if !b1 then if !b0 then 0xD4BE832D else 0x587421D3 else if !b0 then 0x49E06929 else 0x8EC9C844
        else
          if !b4 then
            if !b3 then
              if !b2 then
                if !b1 then if !b0 then 0x75C2896A else 0xF48E7978 else if !b0 then 0x99583E6B else 0x27B971DD
              else
                if !b1 then if !b0 then 0xBEE14FB6 else 0xF088AD17 else if !b0 then 0xC920AC66 else 0x7DCE3AB4
            else
              if !b2 then
                if !b1 then if !b0 then 0x63DF4A18 else 0xE51A3182 else if !b0 then 0x97513360 else 0x62537F45
              else
                if !b1 then if !b0 then 0xB16477E0 else 0xBB6BAE84 else if !b0 then 0xFE81A01C else 0xF9082B94
          else
            if !b3 then
              if !b2 then
                if !b1 then if !b0 then 0x70486858 else 0x8F45FD19 else if !b0 then 0x94DE6C87 else 0x527BF8B7
              else
                if !b1 then if !b0 then 0xAB73D323 else 0x724B02E2 else if !b0 then 0xE31F8F57 else 0x6655AB2A
            else
              if !b2 then
                if !b1 then if !b0 then 0xB2EB2807 else 0x2FB5C203 else if !b0 then 0x86C57B9A else 0xD33708A5
              else
                if !b1 then if !b0 then 0x302887F2 else 0x23BFA5B2 else if !b0 then 0x02036ABA else 0xED16825C
      else
        if !b5 then
          if !b4 then
            if !b3 then
              if !b2 then
                if !b1 then if !b0 then 0x8ACF1C2B else 0xA779B492 else if !b0 then 0xF307F2F0 else 0x4E69E2A1
              else
                if !b1 then if !b0 then 0x65DAF4CD else 0x0605BED5 else if !b0 then 0xD134621F else 0xC4A6FE8A
            else
              if !b2 then
                if !b1 then if !b0 then 0x342E539D else 0xA2F355A0 else if !b0 then 0x058AE132 else 0xA4F6EB75
              else
                if !b1 then if !b0 then 0x0B83EC39 else 0x4060EFAA else if !b0 then 0x5E719F06 else 0xBD6E1051
          else
            if !b3 then
              if !b2 then
                if !b1 then if !b0 then 0x3E218AF9 else 0x96DD063D else if !b0 then 0xDD3E05AE else 0x4DE6BD46
              else
                if !b1 then if !b0 then 0x91548DB5 else 0x71C45D05 else if !b0 then 0x0406D46F else 0x605015FF
            else
              if !b2 then
                if !b1 then if !b0 then 0x1998FB24 else 0xD6BDE997 else if !b0 then 0x894043CC else 0x67D99E77
              else
                if !b1 then if !b0 then 0xB0E842BD else 0x07898B88 else if !b0 then 0xE7195B38 else 0x79C8EEDB
        else
          if !b4 then
            if !b3 then
              if !b2 then
                if !b1 then if !b0 then 0xA17C0A47 else 0x7C420FE9 else if !b0 then 0xF8841EC9 else 0x00000000
              else
                if !b1 then if !b0 then 0x09808683 else 0x322BED48 else if !b0 then 0x1E1170AC else 0x6C5A724E
            else
              if !b2 then
                if !b1 then if !b0 then 0xFD0EFFFB else 0x0F853856 else if !b0 then 0x3DAED51E else 0x362D3927
              else
                if !b1 then if !b0 then 0x0A0FD964 else 0x685CA621 else if !b0 then 0x9B5B54D1 else 0x24362E3A
          else
            if !b3 then
              if !b2 then
                if !b1 then if !b0 then 0x0C0A67B1 else 0x9357E70F else if !b0 then 0xB4EE96D2 else 0x1B9B919E
              else
                if !b1 then if !b0 then 0x80C0C54F else 0x61DC20A2 else if !b0 then 0x5A774B69 else 0x1C121A16
            else
              if !b2 then
                if !b1 then if !b0 then 0xE293BA0A else 0xC0A02AE5 else if !b0 then 0x3C22E043 else 0x121B171D
              else
                if !b1 then if !b0 then 0x0E090D0B else 0xF28BC7AD else if !b0 then 0x2DB6A8B9 else 0x141EA9C8
    else
      if !b6 then
        if !b5 then
          if !b4 then
            if !b3 then
              if !b2 then
                if !b1 then if !b0 then 0x57F11985 else 0xAF75074C else if !b0 then 0xEE99DDBB else 0xA37F60FD
              else
                if !b1 then if !b0 then 0xF701269F else 0x5C72F5BC else if !b0 then 0x44663BC5 else 0x5BFB7E34
            else
              if !b2 then
                if !b1 then if !b0 then 0x8B432976 else 0xCB23C6DC else if !b0 then 0xB6EDFC68 else 0xB8E4F163
              else
                if !b1 then if !b0 then 0xD731DCCA else 0x42638510 else if !b0 then 0x13972240 else 0x84C61120
          else
            if !b3 then
              if !b2 then
                if !b1 then if !b0 then 0x854A247D else 0xD2BB3DF8 else if !b0 then 0xAEF93211 else 0xC729A16D
              else
                if !b1 then if !b0 then 0x1D9E2F4B else 0xDCB230F3 else if !b0 then 0x0D8652EC else 0x77C1E3D0
            else
              if !b2 then
                if !b1 then if !b0 then 0x2BB3166C else 0xA970B999 else if !b0 then 0x119448FA else 0x47E96422
              else
                if !b1 then if !b0 then 0xA8FC8CC4 else 0xA0F03F1A else if !b0 then 0x567D2CD8 else 0x223390EF
        else
          if !b4 then
            if !b3 then
              if !b2 then
                if !b1 then if !b0 then 0x87494EC7 else 0xD938D1C1 else if !b0 then 0x8CCAA2FE else 0x98D40B36
              else
                if !b1 then if !b0 then 0xA6F581CF else 0xA57ADE28 else if !b0 then 0xDAB78E26 else 0x3FADBFA4
            else
              if !b2 then
                if !b1 then if !b0 then 0x2C3A9DE4 else 0x5078920D else if !b0 then 0x6A5FCC9B else 0x547E4662
              else
                if !b1 then if !b0 then 0xF68D13C2 else 0x90D8B8E8 else if !b0 then 0x2E39F75E else 0x82C3AFF5
          else
            if !b3 then
              if !b2 then
                if !b1 then if !b0 then 0x9F5D80BE else 0x69D0937C else if !b0 then 0x6FD52DA9 else 0xCF2512B3
              else
                if !b1 then if !b0 then 0xC8AC993B else 0x10187DA7 else if !b0 then 0xE89C636E else 0xDB3BBB7B
            else
              if !b2 then
                if !b1 then if !b0 then 0xCD267809 else 0x6E5918F4 else if !b0 then 0xEC9AB701 else 0x834F9AA8
              else
                if !b1 then if !b0 then 0xE6956E65 else 0xAAFFE67E else if !b0 then 0x21BCCF08 else 0xEF15E8E6
      else
        if !b5 then
          if !b4 then
            if !b3 then
              if !b2 then
                if !b1 then if !b0 then 0xBAE79BD9 else 0x4A6F36CE else if !b0 then 0xEA9F09D4 else 0x29B07CD6
              else
                if !b1 then if !b0 then 0x31A4B2AF else 0x2A3F2331 else if !b0 then 0xC6A59430 else 0x35A266C0
            else
              if !b2 then
                if !b1 then if !b0 then 0x744EBC37 else 0xFC82CAA6 else if !b0 then 0xE090D0B0 else 0x33A7D815
              else
                if !b1 then if !b0 then 0xF104984A else 0x41ECDAF7 else if !b0 then 0x7FCD500E else 0x1791F62F
          else
            if !b3 then
              if !b2 then
                if !b1 then if !b0 then 0x764DD68D else 0x43EFB04D else if !b0 then 0xCCAA4D54 else 0xE49604DF
              else
                if !b1 then if !b0 then 0x9ED1B5E3 else 0x4C6A881B else if !b0 then 0xC12C1FB8 else 0x4665517F
            else
              if !b2 then
                if !b1 then if !b0 then 0x9D5EEA04 else 0x018C355D else if !b0 then 0xFA877473 else 0xFB0B412E
              else
                if !b1 then if !b0 then 0xB3671D5A else 0x92DBD252 else if !b0 then 0xE9105633 else 0x6DD64713
        else
          if !b4 then
            if !b3 then
              if !b2 then
                if !b1 then if !b0 then 0x9AD7618C else 0x37A10C7A else if !b0 then 0x59F8148E else 0xEB133C89
              else
                if !b1 then if !b0 then 0xCEA927EE else 0xB761C935 else if !b0 then 0xE11CE5ED else 0x7A47B13C
            else
              if !b2 then
                if !b1 then if !b0 then 0x9CD2DF59 else 0x55F2733F else if !b0 then 0x1814CE79 else 0x73C737BF
              else
                if !b1 then if !b0 then 0x53F7CDEA else 0x5FFDAA5B else if !b0 then 0xDF3D6F14 else 0x7844DB86
          else
            if !b3 then
              if !b2 then
                if !b1 then if !b0 then 0xCAAFF381 else 0xB968C43E else if !b0 then 0x3824342C else 0xC2A3405F
              else
                if !b1 then if !b0 then 0x161DC372 else 0xBCE2250C else if !b0 then 0x283C498B else 0xFF0D9541
            else
              if !b2 then
                if !b1 then if !b0 then 0x39A80171 else 0x080CB3DE else if !b0 then 0xD8B4E49C else 0x6456C190
              else
                if !b1 then if !b0 then 0x7BCB8461 else 0xD532B670 else if !b0 then 0x486C5C74 else 0xD0B85742
  }

  /** The word dabc of a word abcd: how the second table of a family respells an entry. */
  function Respell(w: bv32): bv32 {
    (w >> 8) | (w << 24)
  }

  function FT1(x: bv8): bv32 { Respell(FT0(x)) }
  function FT2(x: bv8): bv32 { Respell(FT1(x)) }
  function FT3(x: bv8): bv32 { Respell(FT2(x)) }

  function RT1(x: bv8): bv32 { Respell(RT0(x)) }
  function RT2(x: bv8): bv32 { Respell(RT1(x)) }
  function RT3(x: bv8): bv32 { Respell(RT2(x)) }

  /** Key-schedule tables: RT of the substituted byte. */
  function KT0(x: bv8): bv32 { RT0(FSb(x)) }
  function KT1(x: bv8): bv32 { RT1(FSb(x)) }
  function KT2(x: bv8): bv32 { RT2(FSb(x)) }
  function KT3(x: bv8): bv32 { RT3(FSb(x)) }
}
