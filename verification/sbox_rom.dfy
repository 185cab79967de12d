/// Sbox.v: the combinational case table inside the coprocessor, as a balanced selection over its 256
/// case labels, its inverse table, and its agreement with the C array of nice.h.

module SboxRom {
  import opened Words
  import opened NiceReference

  // The cases of one high nibble.
  function Cases0(x: byte): byte
  {
    if x < 0x08 then
      if x < 0x04 then if x == 0x00 then 0xd6 else if x == 0x01 then 0x90 else if x == 0x02 then 0xe9 else 0xfe
      else if x == 0x04 then 0xcc else if x == 0x05 then 0xe1 else if x == 0x06 then 0x3d else 0xb7
    else
      if x < 0x0c then if x == 0x08 then 0x16 else if x == 0x09 then 0xb6 else if x == 0x0a then 0x14 else 0xc2
      else if x == 0x0c then 0x28 else if x == 0x0d then 0xfb else if x == 0x0e then 0x2c else 0x05
  }

  function Cases1(x: byte): byte
  {
    if x < 0x18 then
      if x < 0x14 then if x == 0x10 then 0x2b else if x == 0x11 then 0x67 else if x == 0x12 then 0x9a else 0x76
      else if x == 0x14 then 0x2a else if x == 0x15 then 0xbe else if x == 0x16 then 0x04 else 0xc3
    else
      if x < 0x1c then if x == 0x18 then 0xaa else if x == 0x19 then 0x44 else if x == 0x1a then 0x13 else 0x26
      else if x == 0x1c then 0x49 else if x == 0x1d then 0x86 else if x == 0x1e then 0x06 else 0x99
  }

  function Cases2(x: byte): byte
  {
    if x < 0x28 then
      if x < 0x24 then if x == 0x20 then 0x9c else if x == 0x21 then 0x42 else if x == 0x22 then 0x50 else 0xf4
      else if x == 0x24 then 0x91 else if x == 0x25 then 0xef else if x == 0x26 then 0x98 else 0x7a
    else
      if x < 0x2c then if x == 0x28 then 0x33 else if x == 0x29 then 0x54 else if x == 0x2a then 0x0b else 0x43
      else if x == 0x2c then 0xed else if x == 0x2d then 0xcf else if x == 0x2e then 0xac else 0x62
  }

  function Cases3(x: byte): byte
  {
    if x < 0x38 then
      if x < 0x34 then if x == 0x30 then 0xe4 else if x == 0x31 then 0xb3 else if x == 0x32 then 0x1c else 0xa9
      else if x == 0x34 then 0xc9 else if x == 0x35 then 0x08 else if x == 0x36 then 0xe8 else 0x95
    else
      if x < 0x3c then if x == 0x38 then 0x80 else if x == 0x39 then 0xdf else if x == 0x3a then 0x94 else 0xfa
      else if x == 0x3c then 0x75 else if x == 0x3d then 0x8f else if x == 0x3e then 0x3f else 0xa6
  }

  function Cases4(x: byte): byte
  {
    if x < 0x48 then
      if x < 0x44 then if x == 0x40 then 0x47 else if x == 0x41 then 0x07 else if x == 0x42 then 0xa7 else 0xfc
      else if x == 0x44 then 0xf3 else if x == 0x45 then 0x73 else if x == 0x46 then 0x17 else 0xba
    else
      if x < 0x4c then if x == 0x48 then 0x83 else if x == 0x49 then 0x59 else if x == 0x4a then 0x3c else 0x19
      else if x == 0x4c then 0xe6 else if x == 0x4d then 0x85 else if x == 0x4e then 0x4f else 0xa8
  }

  function Cases5(x: byte): byte
  {
    if x < 0x58 then
      if x < 0x54 then if x == 0x50 then 0x68 else if x == 0x51 then 0x6b else if x == 0x52 then 0x81 else 0xb2
      else if x == 0x54 then 0x71 else if x == 0x55 then 0x64 else if x == 0x56 then 0xda else 0x8b
    else
      if x < 0x5c then if x == 0x58 then 0xf8 else if x == 0x59 then 0xeb else if x == 0x5a then 0x0f else 0x4b
      else if x == 0x5c then 0x70 else if x == 0x5d then 0x56 else if x == 0x5e then 0x9d else 0x35
  }

  function Cases6(x: byte): byte
  {
    if x < 0x68 then
      if x < 0x64 then if x == 0x60 then 0x1e else if x == 0x61 then 0x24 else if x == 0x62 then 0x0e else 0x5e
      else if x == 0x64 then 0x63 else if x == 0x65 then 0x58 else if x == 0x66 then 0xd1 else 0xa2
    else
      if x < 0x6c then if x == 0x68 then 0x25 else if x == 0x69 then 0x22 else if x == 0x6a then 0x7c else 0x3b
      else if x == 0x6c then 0x01 else if x == 0x6d then 0x21 else if x == 0x6e then 0x78 else 0x87
  }

  function Cases7(x: byte): byte
  {
    if x < 0x78 then
      if x < 0x74 then if x == 0x70 then 0xd4 else if x == 0x71 then 0x00 else if x == 0x72 then 0x46 else 0x57
      else if x == 0x74 then 0x9f else if x == 0x75 then 0xd3 else if x == 0x76 then 0x27 else 0x52
    else
      if x < 0x7c then if x == 0x78 then 0x4c else if x == 0x79 then 0x36 else if x == 0x7a then 0x02 else 0xe7
      else if x == 0x7c then 0xa0 else if x == 0x7d then 0xc4 else if x == 0x7e then 0xc8 else 0x9e
  }

  function Cases8(x: byte): byte
  {
    if x < 0x88 then
      if x < 0x84 then if x == 0x80 then 0xea else if x == 0x81 then 0xbf else if x == 0x82 then 0x8a else 0xd2
      else if x == 0x84 then 0x40 else if x == 0x85 then 0xc7 else if x == 0x86 then 0x38 else 0xb5
    else
      if x < 0x8c then if x == 0x88 then 0xa3 else if x == 0x89 then 0xf7 else if x == 0x8a then 0xf2 else 0xce
      else if x == 0x8c then 0xf9 else if x == 0x8d then 0x61 else if x == 0x8e then 0x15 else 0xa1
  }

  function Cases9(x: byte): byte
  {
    if x < 0x98 then
      if x < 0x94 then if x == 0x90 then 0xe0 else if x == 0x91 then 0xae else if x == 0x92 then 0x5d else 0xa4
      else if x == 0x94 then 0x9b else if x == 0x95 then 0x34 else if x == 0x96 then 0x1a else 0x55
    else
      if x < 0x9c then if x == 0x98 then 0xad else if x == 0x99 then 0x93 else if x == 0x9a then 0x32 else 0x30
      else if x == 0x9c then 0xf5 else if x == 0x9d then 0x8c else if x == 0x9e then 0xb1 else 0xe3
  }

  function Cases10(x: byte): byte
  {
    if x < 0xa8 then
      if x < 0xa4 then if x == 0xa0 then 0x1d else if x == 0xa1 then 0xf6 else if x == 0xa2 then 0xe2 else 0x2e
      else if x == 0xa4 then 0x82 else if x == 0xa5 then 0x66 else if x == 0xa6 then 0xca else 0x60
    else
      if x < 0xac then if x == 0xa8 then 0xc0 else if x == 0xa9 then 0x29 else if x == 0xaa then 0x23 else 0xab
      else if x == 0xac then 0x0d else if x == 0xad then 0x53 else if x == 0xae then 0x4e else 0x6f
  }

  function Cases11(x: byte): byte
  {
    if x < 0xb8 then
      if x < 0xb4 then if x == 0xb0 then 0xd5 else if x == 0xb1 then 0xdb else if x == 0xb2 then 0x37 else 0x45
      else if x == 0xb4 then 0xde else if x == 0xb5 then 0xfd else if x == 0xb6 then 0x8e else 0x2f
    else
      if x < 0xbc then if x == 0xb8 then 0x03 else if x == 0xb9 then 0xff else if x == 0xba then 0x6a else 0x72
      else if x == 0xbc then 0x6d else if x == 0xbd then 0x6c else if x == 0xbe then 0x5b else 0x51
  }

  function Cases12(x: byte): byte
  {
    if x < 0xc8 then
      if x < 0xc4 then if x == 0xc0 then 0x8d else if x == 0xc1 then 0x1b else if x == 0xc2 then 0xaf else 0x92
      else if x == 0xc4 then 0xbb else if x == 0xc5 then 0xdd else if x == 0xc6 then 0xbc else 0x7f
    else
      if x < 0xcc then if x == 0xc8 then 0x11 else if x == 0xc9 then 0xd9 else if x == 0xca then 0x5c else 0x41
      else if x == 0xcc then 0x1f else if x == 0xcd then 0x10 else if x == 0xce then 0x5a else 0xd8
  }

  function Cases13(x: byte): byte
  {
    if x < 0xd8 then
      if x < 0xd4 then if x == 0xd0 then 0x0a else if x == 0xd1 then 0xc1 else if x == 0xd2 then 0x31 else 0x88
      else if x == 0xd4 then 0xa5 else if x == 0xd5 then 0xcd else if x == 0xd6 then 0x7b else 0xbd
    else
      if x < 0xdc then if x == 0xd8 then 0x2d else if x == 0xd9 then 0x74 else if x == 0xda then 0xd0 else 0x12
      else if x == 0xdc then 0xb8 else if x == 0xdd then 0xe5 else if x == 0xde then 0xb4 else 0xb0
  }

  function Cases14(x: byte): byte
  {
    if x < 0xe8 then
      if x < 0xe4 then if x == 0xe0 then 0x89 else if x == 0xe1 then 0x69 else if x == 0xe2 then 0x97 else 0x4a
      else if x == 0xe4 then 0x0c else if x == 0xe5 then 0x96 else if x == 0xe6 then 0x77 else 0x7e
    else
      if x < 0xec then if x == 0xe8 then 0x65 else if x == 0xe9 then 0xb9 else if x == 0xea then 0xf1 else 0x09
      else if x == 0xec then 0xc5 else if x == 0xed then 0x6e else if x == 0xee then 0xc6 else 0x84
  }

  function Cases15(x: byte): byte
  {
    if x < 0xf8 then
      if x < 0xf4 then if x == 0xf0 then 0x18 else if x == 0xf1 then 0xf0 else if x == 0xf2 then 0x7d else 0xec
      else if x == 0xf4 then 0x3a else if x == 0xf5 then 0xdc else if x == 0xf6 then 0x4d else 0x20
    else
      if x < 0xfc then if x == 0xf8 then 0x79 else if x == 0xf9 then 0xee else if x == 0xfa then 0x5f else 0x3e
      else if x == 0xfc then 0xd7 else if x == 0xfd then 0xcb else if x == 0xfe then 0x39 else 0x48
  }

  function DataOut(x: byte): byte
  {
    if x < 0x80 then
      if x < 0x40 then
        if x < 0x20 then
          if x < 0x10 then Cases0(x) else Cases1(x)
        else
          if x < 0x30 then Cases2(x) else Cases3(x)
      else
        if x < 0x60 then
          if x < 0x50 then Cases4(x) else Cases5(x)
        else
          if x < 0x70 then Cases6(x) else Cases7(x)
    else
      if x < 0xc0 then
        if x < 0xa0 then
          if x < 0x90 then Cases8(x) else Cases9(x)
        else
          if x < 0xb0 then Cases10(x) else Cases11(x)
      else
        if x < 0xe0 then
          if x < 0xd0 then Cases12(x) else Cases13(x)
        else
          if x < 0xf0 then Cases14(x) else Cases15(x)
  }

  function Inverse(x: byte): byte
  {
    if x < 0x80 then (
     if x < 0x40 then (
      if x < 0x20 then (
       if x < 0x10 then (
        if x < 0x08 then (
         if x < 0x04 then (
          if x == 0x00 then 0x71 else if x == 0x01 then 0x6c else if x == 0x02 then 0x7a else 0xb8
         ) else (
          if x == 0x04 then 0x16 else if x == 0x05 then 0x0f else if x == 0x06 then 0x1e else 0x41
         )
        ) else (
         if x < 0x0c then (
          if x == 0x08 then 0x35 else if x == 0x09 then 0xeb else if x == 0x0a then 0xd0 else 0x2a
         ) else (
          if x == 0x0c then 0xe4 else if x == 0x0d then 0xac else if x == 0x0e then 0x62 else 0x5a
         )
        )
       ) else (
        if x < 0x18 then (
         if x < 0x14 then (
          if x == 0x10 then 0xcd else if x == 0x11 then 0xc8 else if x == 0x12 then 0xdb else 0x1a
         ) else (
          if x == 0x14 then 0x0a else if x == 0x15 then 0x8e else if x == 0x16 then 0x08 else 0x46
         )
        ) else (
         if x < 0x1c then (
          if x == 0x18 then 0xf0 else if x == 0x19 then 0x4b else if x == 0x1a then 0x96 else 0xc1
         ) else (
          if x == 0x1c then 0x32 else if x == 0x1d then 0xa0 else if x == 0x1e then 0x60 else 0xcc
         )
        )
       )
      ) else (
       if x < 0x30 then (
        if x < 0x28 then (
         if x < 0x24 then (
          if x == 0x20 then 0xf7 else if x == 0x21 then 0x6d else if x == 0x22 then 0x69 else 0xaa
         ) else (
          if x == 0x24 then 0x61 else if x == 0x25 then 0x68 else if x == 0x26 then 0x1b else 0x76
         )
        ) else (
         if x < 0x2c then (
          if x == 0x28 then 0x0c else if x == 0x29 then 0xa9 else if x == 0x2a then 0x14 else 0x10
         ) else (
          if x == 0x2c then 0x0e else if x == 0x2d then 0xd8 else if x == 0x2e then 0xa3 else 0xb7
         )
        )
       ) else (
        if x < 0x38 then (
         if x < 0x34 then (
          if x == 0x30 then 0x9b else if x == 0x31 then 0xd2 else if x == 0x32 then 0x9a else 0x28
         ) else (
          if x == 0x34 then 0x95 else if x == 0x35 then 0x5f else if x == 0x36 then 0x79 else 0xb2
         )
        ) else (
         if x < 0x3c then (
          if x == 0x38 then 0x86 else if x == 0x39 then 0xfe else if x == 0x3a then 0xf4 else 0x6b
         ) else (
          if x == 0x3c then 0x4a else if x == 0x3d then 0x06 else if x == 0x3e then 0xfb else 0x3e
         )
        )
       )
      )
     ) else (
      if x < 0x60 then (
       if x < 0x50 then (
        if x < 0x48 then (
         if x < 0x44 then (
          if x == 0x40 then 0x84 else if x == 0x41 then 0xcb else if x == 0x42 then 0x21 else 0x2b
         ) else (
          if x == 0x44 then 0x19 else if x == 0x45 then 0xb3 else if x == 0x46 then 0x72 else 0x40
         )
        ) else (
         if x < 0x4c then (
          if x == 0x48 then 0xff else if x == 0x49 then 0x1c else if x == 0x4a then 0xe3 else 0x5b
         ) else (
          if x == 0x4c then 0x78 else if x == 0x4d then 0xf6 else if x == 0x4e then 0xae else 0x4e
         )
        )
       ) else (
        if x < 0x58 then (
         if x < 0x54 then (
          if x == 0x50 then 0x22 else if x == 0x51 then 0xbf else if x == 0x52 then 0x77 else 0xad
         ) else (
          if x == 0x54 then 0x29 else if x == 0x55 then 0x97 else if x == 0x56 then 0x5d else 0x73
         )
        ) else (
         if x < 0x5c then (
          if x == 0x58 then 0x65 else if x == 0x59 then 0x49 else if x == 0x5a then 0xce else 0xbe
         ) else (
          if x == 0x5c then 0xca else if x == 0x5d then 0x92 else if x == 0x5e then 0x63 else 0xfa
         )
        )
       )
      ) else (
       if x < 0x70 then (
        if x < 0x68 then (
         if x < 0x64 then (
          if x == 0x60 then 0xa7 else if x == 0x61 then 0x8d else if x == 0x62 then 0x2f else 0x64
         ) else (
          if x == 0x64 then 0x55 else if x == 0x65 then 0xe8 else if x == 0x66 then 0xa5 else 0x11
         )
        ) else (
         if x < 0x6c then (
          if x == 0x68 then 0x50 else if x == 0x69 then 0xe1 else if x == 0x6a then 0xba else 0x51
         ) else (
          if x == 0x6c then 0xbd else if x == 0x6d then 0xbc else if x == 0x6e then 0xed else 0xaf
         )
        )
       ) else (
        if x < 0x78 then (
         if x < 0x74 then (
          if x == 0x70 then 0x5c else if x == 0x71 then 0x54 else if x == 0x72 then 0xbb else 0x45
         ) else (
          if x == 0x74 then 0xd9 else if x == 0x75 then 0x3c else if x == 0x76 then 0x13 else 0xe6
         )
        ) else (
         if x < 0x7c then (
          if x == 0x78 then 0x6e else if x == 0x79 then 0xf8 else if x == 0x7a then 0x27 else 0xd6
         ) else (
          if x == 0x7c then 0x6a else if x == 0x7d then 0xf2 else if x == 0x7e then 0xe7 else 0xc7
         )
        )
       )
      )
     )
    ) else (
     if x < 0xc0 then (
      if x < 0xa0 then (
       if x < 0x90 then (
        if x < 0x88 then (
         if x < 0x84 then (
          if x == 0x80 then 0x38 else if x == 0x81 then 0x52 else if x == 0x82 then 0xa4 else 0x48
         ) else (
          if x == 0x84 then 0xef else if x == 0x85 then 0x4d else if x == 0x86 then 0x1d else 0x6f
         )
        ) else (
         if x < 0x8c then (
          if x == 0x88 then 0xd3 else if x == 0x89 then 0xe0 else if x == 0x8a then 0x82 else 0x57
         ) else (
          if x == 0x8c then 0x9d else if x == 0x8d then 0xc0 else if x == 0x8e then 0xb6 else 0x3d
         )
        )
       ) else (
        if x < 0x98 then (
         if x < 0x94 then (
          if x == 0x90 then 0x01 else if x == 0x91 then 0x24 else if x == 0x92 then 0xc3 else 0x99
         ) else (
          if x == 0x94 then 0x3a else if x == 0x95 then 0x37 else if x == 0x96 then 0xe5 else 0xe2
         )
        ) else (
         if x < 0x9c then (
          if x == 0x98 then 0x26 else if x == 0x99 then 0x1f else if x == 0x9a then 0x12 else 0x94
         ) else (
          if x == 0x9c then 0x20 else if x == 0x9d then 0x5e else if x == 0x9e then 0x7f else 0x74
         )
        )
       )
      ) else (
       if x < 0xb0 then (
        if x < 0xa8 then (
         if x < 0xa4 then (
          if x == 0xa0 then 0x7c else if x == 0xa1 then 0x8f else if x == 0xa2 then 0x67 else 0x88
         ) else (
          if x == 0xa4 then 0x93 else if x == 0xa5 then 0xd4 else if x == 0xa6 then 0x3f else 0x42
         )
        ) else (
         if x < 0xac then (
          if x == 0xa8 then 0x4f else if x == 0xa9 then 0x33 else if x == 0xaa then 0x18 else 0xab
         ) else (
          if x == 0xac then 0x2e else if x == 0xad then 0x98 else if x == 0xae then 0x91 else 0xc2
         )
        )
       ) else (
        if x < 0xb8 then (
         if x < 0xb4 then (
          if x == 0xb0 then 0xdf else if x == 0xb1 then 0x9e else if x == 0xb2 then 0x53 else 0x31
         ) else (
          if x == 0xb4 then 0xde else if x == 0xb5 then 0x87 else if x == 0xb6 then 0x09 else 0x07
         )
        ) else (
         if x < 0xbc then (
          if x == 0xb8 then 0xdc else if x == 0xb9 then 0xe9 else if x == 0xba then 0x47 else 0xc4
         ) else (
          if x == 0xbc then 0xc6 else if x == 0xbd then 0xd7 else if x == 0xbe then 0x15 else 0x81
         )
        )
       )
      )
     ) else (
      if x < 0xe0 then (
       if x < 0xd0 then (
        if x < 0xc8 then (
         if x < 0xc4 then (
          if x == 0xc0 then 0xa8 else if x == 0xc1 then 0xd1 else if x == 0xc2 then 0x0b else 0x17
         ) else (
          if x == 0xc4 then 0x7d else if x == 0xc5 then 0xec else if x == 0xc6 then 0xee else 0x85
         )
        ) else (
         if x < 0xcc then (
          if x == 0xc8 then 0x7e else if x == 0xc9 then 0x34 else if x == 0xca then 0xa6 else 0xfd
         ) else (
          if x == 0xcc then 0x04 else if x == 0xcd then 0xd5 else if x == 0xce then 0x8b else 0x2d
         )
        )
       ) else (
        if x < 0xd8 then (
         if x < 0xd4 then (
          if x == 0xd0 then 0xda else if x == 0xd1 then 0x66 else if x == 0xd2 then 0x83 else 0x75
         ) else (
          if x == 0xd4 then 0x70 else if x == 0xd5 then 0xb0 else if x == 0xd6 then 0x00 else 0xfc
         )
        ) else (
         if x < 0xdc then (
          if x == 0xd8 then 0xcf else if x == 0xd9 then 0xc9 else if x == 0xda then 0x56 else 0xb1
         ) else (
          if x == 0xdc then 0xf5 else if x == 0xdd then 0xc5 else if x == 0xde then 0xb4 else 0x39
         )
        )
       )
      ) else (
       if x < 0xf0 then (
        if x < 0xe8 then (
         if x < 0xe4 then (
          if x == 0xe0 then 0x90 else if x == 0xe1 then 0x05 else if x == 0xe2 then 0xa2 else 0x9f
         ) else (
          if x == 0xe4 then 0x30 else if x == 0xe5 then 0xdd else if x == 0xe6 then 0x4c else 0x7b
         )
        ) else (
         if x < 0xec then (
          if x == 0xe8 then 0x36 else if x == 0xe9 then 0x02 else if x == 0xea then 0x80 else 0x59
         ) else (
          if x == 0xec then 0xf3 else if x == 0xed then 0x2c else if x == 0xee then 0xf9 else 0x25
         )
        )
       ) else (
        if x < 0xf8 then (
         if x < 0xf4 then (
          if x == 0xf0 then 0xf1 else if x == 0xf1 then 0xea else if x == 0xf2 then 0x8a else 0x44
         ) else (
          if x == 0xf4 then 0x23 else if x == 0xf5 then 0x9c else if x == 0xf6 then 0xa1 else 0x89
         )
        ) else (
         if x < 0xfc then (
          if x == 0xf8 then 0x58 else if x == 0xf9 then 0x8c else if x == 0xfa then 0x3b else 0x0d
         ) else (
          if x == 0xfc then 0x43 else if x == 0xfd then 0xb5 else if x == 0xfe then 0x03 else 0xb9
         )
        )
       )
      )
     )
    )
  }

  // The table is a permutation of the 256 bytes.
  lemma InverseOfDataOut0(x: byte)
    requires x < 0x40
    ensures Inverse(DataOut(x)) == x
  {
  }

  lemma InverseOfDataOut1(x: byte)
    requires 0x40 <= x < 0x80
    ensures Inverse(DataOut(x)) == x
  {
  }

  lemma InverseOfDataOut2(x: byte)
    requires 0x80 <= x < 0xc0
    ensures Inverse(DataOut(x)) == x
  {
  }

  lemma InverseOfDataOut3(x: byte)
    requires 0xc0 <= x
    ensures Inverse(DataOut(x)) == x
  {
  }

  lemma InverseOfDataOut(x: byte)
    ensures Inverse(DataOut(x)) == x
  {
    hide DataOut, Inverse;
    if x < 0x40 { InverseOfDataOut0(x); }
    else if x < 0x80 { InverseOfDataOut1(x); }
    else if x < 0xc0 { InverseOfDataOut2(x); }
    else { InverseOfDataOut3(x); }
  }

  lemma DataOutOfInverse0(x: byte)
    requires x < 0x40
    ensures DataOut(Inverse(x)) == x
  {
  }

  lemma DataOutOfInverse1(x: byte)
    requires 0x40 <= x < 0x80
    ensures DataOut(Inverse(x)) == x
  {
  }

  lemma DataOutOfInverse2(x: byte)
    requires 0x80 <= x < 0xc0
    ensures DataOut(Inverse(x)) == x
  {
  }

  lemma DataOutOfInverse3(x: byte)
    requires 0xc0 <= x
    ensures DataOut(Inverse(x)) == x
  {
  }

  lemma DataOutOfInverse(x: byte)
    ensures DataOut(Inverse(x)) == x
  {
    hide DataOut, Inverse;
    if x < 0x40 { DataOutOfInverse0(x); }
    else if x < 0x80 { DataOutOfInverse1(x); }
    else if x < 0xc0 { DataOutOfInverse2(x); }
    else { DataOutOfInverse3(x); }
  }

  // The array element lies in the row of the high nibble.
  lemma RowOf(x: byte, r: nat)
    requires r == Nibble(x >> 4)
    ensures Sbox(x) == SboxRow(r)[Nibble(x & 0xf)]
  {
    hide SboxRow, Nibble;
  }

  lemma SameRow0(x: byte)
    requires x < 0x10
    ensures DataOut(x) == Sbox(x)
  {
    RowOf(x, 0);
    assert DataOut(x) == Cases0(x);
    hide Sbox, DataOut;
    if x < 0x04 {
    } else if x < 0x08 {
    } else if x < 0x0c {
    } else {
    }
  }

  lemma SameRow1(x: byte)
    requires 0x10 <= x < 0x20
    ensures DataOut(x) == Sbox(x)
  {
    RowOf(x, 1);
    assert DataOut(x) == Cases1(x);
    hide Sbox, DataOut;
    if x < 0x14 {
    } else if x < 0x18 {
    } else if x < 0x1c {
    } else {
    }
  }

  lemma SameRow2(x: byte)
    requires 0x20 <= x < 0x30
    ensures DataOut(x) == Sbox(x)
  {
    RowOf(x, 2);
    assert DataOut(x) == Cases2(x);
    hide Sbox, DataOut;
    if x < 0x24 {
    } else if x < 0x28 {
    } else if x < 0x2c {
    } else {
    }
  }

  lemma SameRow3(x: byte)
    requires 0x30 <= x < 0x40
    ensures DataOut(x) == Sbox(x)
  {
    RowOf(x, 3);
    assert DataOut(x) == Cases3(x);
    hide Sbox, DataOut;
    if x < 0x34 {
    } else if x < 0x38 {
    } else if x < 0x3c {
    } else {
    }
  }

  lemma SameRow4(x: byte)
    requires 0x40 <= x < 0x50
    ensures DataOut(x) == Sbox(x)
  {
    RowOf(x, 4);
    assert DataOut(x) == Cases4(x);
    hide Sbox, DataOut;
    if x < 0x44 {
    } else if x < 0x48 {
    } else if x < 0x4c {
    } else {
    }
  }

  lemma SameRow5(x: byte)
    requires 0x50 <= x < 0x60
    ensures DataOut(x) == Sbox(x)
  {
    RowOf(x, 5);
    assert DataOut(x) == Cases5(x);
    hide Sbox, DataOut;
    if x < 0x54 {
    } else if x < 0x58 {
    } else if x < 0x5c {
    } else {
    }
  }

  lemma SameRow6(x: byte)
    requires 0x60 <= x < 0x70
    ensures DataOut(x) == Sbox(x)
  {
    RowOf(x, 6);
    assert DataOut(x) == Cases6(x);
    hide Sbox, DataOut;
    if x < 0x64 {
    } else if x < 0x68 {
    } else if x < 0x6c {
    } else {
    }
  }

  lemma SameRow7(x: byte)
    requires 0x70 <= x < 0x80
    ensures DataOut(x) == Sbox(x)
  {
    RowOf(x, 7);
    assert DataOut(x) == Cases7(x);
    hide Sbox, DataOut;
    if x < 0x74 {
    } else if x < 0x78 {
    } else if x < 0x7c {
    } else {
    }
  }

  lemma SameRow8(x: byte)
    requires 0x80 <= x < 0x90
    ensures DataOut(x) == Sbox(x)
  {
    RowOf(x, 8);
    assert DataOut(x) == Cases8(x);
    hide Sbox, DataOut;
    if x < 0x84 {
    } else if x < 0x88 {
    } else if x < 0x8c {
    } else {
    }
  }

  lemma SameRow9(x: byte)
    requires 0x90 <= x < 0xa0
    ensures DataOut(x) == Sbox(x)
  {
    RowOf(x, 9);
    assert DataOut(x) == Cases9(x);
    hide Sbox, DataOut;
    if x < 0x94 {
    } else if x < 0x98 {
    } else if x < 0x9c {
    } else {
    }
  }

  lemma SameRow10(x: byte)
    requires 0xa0 <= x < 0xb0
    ensures DataOut(x) == Sbox(x)
  {
    RowOf(x, 10);
    assert DataOut(x) == Cases10(x);
    hide Sbox, DataOut;
    if x < 0xa4 {
    } else if x < 0xa8 {
    } else if x < 0xac {
    } else {
    }
  }

  lemma SameRow11(x: byte)
    requires 0xb0 <= x < 0xc0
    ensures DataOut(x) == Sbox(x)
  {
    RowOf(x, 11);
    assert DataOut(x) == Cases11(x);
    hide Sbox, DataOut;
    if x < 0xb4 {
    } else if x < 0xb8 {
    } else if x < 0xbc {
    } else {
    }
  }

  lemma SameRow12(x: byte)
    requires 0xc0 <= x < 0xd0
    ensures DataOut(x) == Sbox(x)
  {
    RowOf(x, 12);
    assert DataOut(x) == Cases12(x);
    hide Sbox, DataOut;
    if x < 0xc4 {
    } else if x < 0xc8 {
    } else if x < 0xcc {
    } else {
    }
  }

  lemma SameRow13(x: byte)
    requires 0xd0 <= x < 0xe0
    ensures DataOut(x) == Sbox(x)
  {
    RowOf(x, 13);
    assert DataOut(x) == Cases13(x);
    hide Sbox, DataOut;
    if x < 0xd4 {
    } else if x < 0xd8 {
    } else if x < 0xdc {
    } else {
    }
  }

  lemma SameRow14(x: byte)
    requires 0xe0 <= x < 0xf0
    ensures DataOut(x) == Sbox(x)
  {
    RowOf(x, 14);
    assert DataOut(x) == Cases14(x);
    hide Sbox, DataOut;
    if x < 0xe4 {
    } else if x < 0xe8 {
    } else if x < 0xec {
    } else {
    }
  }

  lemma SameRow15(x: byte)
    requires 0xf0 <= x
    ensures DataOut(x) == Sbox(x)
  {
    RowOf(x, 15);
    assert DataOut(x) == Cases15(x);
    hide Sbox, DataOut;
    if x < 0xf4 {
    } else if x < 0xf8 {
    } else if x < 0xfc {
    } else {
    }
  }

  // The hardware table and the software table are the same function.
  lemma SameTable(x: byte)
    ensures DataOut(x) == Sbox(x)
  {
    hide DataOut, Sbox;
    if x < 0x10 { SameRow0(x); }
    else if x < 0x20 { SameRow1(x); }
    else if x < 0x30 { SameRow2(x); }
    else if x < 0x40 { SameRow3(x); }
    else if x < 0x50 { SameRow4(x); }
    else if x < 0x60 { SameRow5(x); }
    else if x < 0x70 { SameRow6(x); }
    else if x < 0x80 { SameRow7(x); }
    else if x < 0x90 { SameRow8(x); }
    else if x < 0xa0 { SameRow9(x); }
    else if x < 0xb0 { SameRow10(x); }
    else if x < 0xc0 { SameRow11(x); }
    else if x < 0xd0 { SameRow12(x); }
    else if x < 0xe0 { SameRow13(x); }
    else if x < 0xf0 { SameRow14(x); }
    else { SameRow15(x); }
  }
}
