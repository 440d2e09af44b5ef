/** The tables of the genksyms scanner, each array as a decision tree on its index, and the
    proof that they are well formed. */
module GenksymsTables {
  import opened FlexTables
  import opened Wrappers

  /** yy_accept */
  function Accept(i: nat): nat
    requires i < 73
  {
    if i < 36 then (if i < 18 then (if i < 9 then (if i < 4 then (if i < 2 then 0 else (if i < 3 then 0 else
    14)) else (if i < 6 then (if i < 5 then 12 else 4) else (if i < 7 then 3 else (if i < 8 then 12 else 7))))
    else (if i < 13 then 12 else (if i < 15 then (if i < 14 then 12 else 9) else (if i < 16 then 9 else 12))))
    else (if i < 27 then (if i < 22 then (if i < 20 then (if i < 19 then 7 else 12) else (if i < 21 then 12
    else 4)) else (if i < 24 then (if i < 23 then 0 else 5) else (if i < 25 then 0 else (if i < 26 then 7 else
    8)))) else (if i < 31 then (if i < 29 then (if i < 28 then 0 else 6) else 0) else (if i < 33 then 10 else
    (if i < 34 then 9 else 0))))) else (if i < 54 then (if i < 45 then (if i < 40 then (if i < 38 then 9 else
    (if i < 39 then 0 else 9)) else (if i < 42 then 0 else (if i < 43 then 0 else (if i < 44 then 0 else 2))))
    else (if i < 49 then (if i < 47 then 0 else (if i < 48 then 11 else 0)) else (if i < 51 then (if i < 50
    then 10 else 0) else (if i < 52 then 10 else 9)))) else (if i < 63 then (if i < 58 then (if i < 56 then 0
    else (if i < 57 then 0 else 10)) else (if i < 60 then (if i < 59 then 10 else 0) else 0)) else (if i < 68
    then 0 else (if i < 70 then 0 else (if i < 71 then 0 else (if i < 72 then 1 else 0))))))
  }

  /** yy_ec */
  function Ec(i: nat): nat
    requires i < 256
  {
    if i < 128 then (if i < 64 then (if i < 32 then (if i < 16 then (if i < 8 then (if i < 4 then (if i < 2
    then (if i < 1 then 0 else 1) else 1) else 1) else (if i < 12 then (if i < 10 then (if i < 9 then 1 else 2)
    else (if i < 11 then 3 else 4)) else (if i < 14 then 4 else 1))) else 1) else (if i < 48 then (if i < 40
    then (if i < 36 then (if i < 34 then (if i < 33 then 2 else 1) else (if i < 35 then 5 else 6)) else (if i <
    38 then (if i < 37 then 7 else 8) else (if i < 39 then 9 else 10))) else (if i < 44 then (if i < 42 then 1
    else (if i < 43 then 8 else 11)) else (if i < 46 then (if i < 45 then 1 else 12) else (if i < 47 then 13
    else 8)))) else (if i < 56 then (if i < 52 then (if i < 50 then (if i < 49 then 14 else 15) else 15) else
    15) else (if i < 60 then (if i < 58 then 16 else 1) else (if i < 62 then (if i < 61 then 17 else 18) else
    (if i < 63 then 19 else 1)))))) else (if i < 96 then (if i < 80 then (if i < 72 then (if i < 68 then (if i
    < 66 then (if i < 65 then 1 else 20) else 20) else (if i < 70 then (if i < 69 then 20 else 21) else (if i <
    71 then 22 else 7))) else (if i < 76 then 7 else (if i < 78 then (if i < 77 then 23 else 7) else 7))) else
    (if i < 88 then (if i < 84 then 7 else (if i < 86 then (if i < 85 then 7 else 24) else 7)) else (if i < 92
    then (if i < 90 then (if i < 89 then 25 else 7) else (if i < 91 then 7 else 1)) else (if i < 94 then (if i
    < 93 then 26 else 1) else (if i < 95 then 8 else 7))))) else (if i < 112 then (if i < 104 then (if i < 100
    then (if i < 98 then (if i < 97 then 1 else 20) else 20) else (if i < 102 then (if i < 101 then 20 else 21)
    else (if i < 103 then 22 else 7))) else (if i < 108 then 7 else (if i < 110 then (if i < 109 then 27 else
    7) else 7))) else (if i < 120 then (if i < 116 then 7 else (if i < 118 then (if i < 117 then 7 else 24)
    else 7)) else (if i < 124 then (if i < 122 then (if i < 121 then 25 else 7) else (if i < 123 then 7 else
    1)) else (if i < 126 then (if i < 125 then 28 else 1) else (if i < 127 then 8 else 1))))))) else 1
  }

  /** yy_meta */
  function Meta(i: nat): nat
    requires i < 29
  {
    if i < 14 then (if i < 7 then (if i < 3 then (if i < 1 then 0 else 1) else (if i < 5 then (if i < 4 then 2
    else 1) else 1)) else (if i < 10 then (if i < 8 then 3 else 1) else (if i < 12 then (if i < 11 then 1 else
    4) else (if i < 13 then 4 else 5)))) else (if i < 21 then (if i < 17 then 6 else (if i < 19 then 1 else (if
    i < 20 then 1 else 7))) else (if i < 25 then (if i < 23 then (if i < 22 then 8 else 7) else 3) else (if i <
    27 then (if i < 26 then 3 else 1) else (if i < 28 then 3 else 1))))
  }

  /** yy_base */
  function Base(i: nat): nat
    requires i < 85
  {
    if i < 42 then (if i < 21 then (if i < 10 then (if i < 5 then (if i < 2 then 0 else (if i < 3 then 145 else
    (if i < 4 then 150 else 266))) else (if i < 7 then (if i < 6 then 27 else 266) else (if i < 8 then 25 else
    (if i < 9 then 0 else 131)))) else (if i < 15 then (if i < 12 then 23 else (if i < 13 then 16 else (if i <
    14 then 23 else 39))) else (if i < 18 then (if i < 16 then 31 else (if i < 17 then 25 else 39)) else (if i
    < 19 then 60 else (if i < 20 then 22 else 65))))) else (if i < 31 then (if i < 26 then (if i < 23 then (if
    i < 22 then 57 else 43) else (if i < 24 then 266 else 0)) else (if i < 28 then (if i < 27 then 266 else 61)
    else (if i < 29 then 266 else (if i < 30 then 0 else 128)))) else (if i < 36 then (if i < 33 then (if i <
    32 then 74 else 0) else (if i < 34 then 113 else (if i < 35 then 59 else 62))) else (if i < 39 then (if i <
    37 then 113 else (if i < 38 then 52 else 0)) else (if i < 40 then 0 else (if i < 41 then 72 else 66))))))
    else (if i < 63 then (if i < 52 then (if i < 47 then (if i < 44 then (if i < 43 then 110 else 100) else (if
    i < 45 then 266 else (if i < 46 then 73 else 74))) else (if i < 49 then (if i < 48 then 266 else 70) else
    (if i < 50 then 266 else (if i < 51 then 90 else 103)))) else (if i < 57 then (if i < 54 then (if i < 53
    then 266 else 84) else (if i < 55 then 129 else (if i < 56 then 108 else 113))) else (if i < 60 then (if i
    < 58 then 143 else (if i < 59 then 266 else 107)) else (if i < 61 then 66 else (if i < 62 then 118 else
    137))))) else (if i < 74 then (if i < 68 then (if i < 65 then (if i < 64 then 168 else 120) else (if i < 66
    then 80 else (if i < 67 then 91 else 145))) else (if i < 71 then (if i < 69 then 143 else (if i < 70 then
    83 else 41)) else (if i < 72 then 266 else (if i < 73 then 266 else 190)))) else (if i < 79 then (if i < 76
    then (if i < 75 then 196 else 204) else (if i < 77 then 212 else (if i < 78 then 220 else 228))) else (if i
    < 82 then (if i < 80 then 232 else (if i < 81 then 237 else 238)) else (if i < 83 then 243 else (if i < 84
    then 249 else 257))))))
  }

  /** yy_def */
  function Def(i: nat): nat
    requires i < 85
  {
    if i < 42 then (if i < 21 then (if i < 10 then (if i < 5 then (if i < 2 then (if i < 1 then 0 else 72) else
    (if i < 3 then 1 else 72)) else (if i < 7 then 72 else (if i < 8 then 73 else (if i < 9 then 74 else 72))))
    else (if i < 15 then (if i < 12 then (if i < 11 then 72 else 75) else 72) else (if i < 18 then (if i < 16
    then 14 else 72) else (if i < 19 then 74 else (if i < 20 then 72 else 76))))) else (if i < 31 then (if i <
    26 then (if i < 23 then (if i < 22 then 72 else 73) else (if i < 24 then 72 else (if i < 25 then 77 else
    74))) else (if i < 28 then (if i < 27 then 72 else 75) else (if i < 29 then 72 else (if i < 30 then 78 else
    72)))) else (if i < 36 then (if i < 33 then (if i < 32 then 72 else 31) else (if i < 34 then 14 else (if i
    < 35 then 79 else 80))) else (if i < 39 then (if i < 37 then 72 else (if i < 38 then 72 else 81)) else (if
    i < 40 then 15 else (if i < 41 then 73 else 75)))))) else (if i < 63 then (if i < 52 then (if i < 47 then
    (if i < 44 then 76 else (if i < 45 then 72 else (if i < 46 then 73 else 75))) else (if i < 49 then (if i <
    48 then 72 else 82) else 72)) else (if i < 57 then (if i < 54 then (if i < 53 then 72 else 81) else (if i <
    55 then 76 else (if i < 56 then 54 else 72))) else (if i < 60 then (if i < 58 then 72 else (if i < 59 then
    72 else 76)) else (if i < 61 then 54 else 76)))) else (if i < 74 then (if i < 68 then (if i < 65 then (if i
    < 64 then 76 else 54) else (if i < 66 then 83 else (if i < 67 then 76 else 63))) else (if i < 71 then (if i
    < 69 then 83 else 84) else (if i < 72 then 72 else (if i < 73 then 0 else 72)))) else 72))
  }

  /** yy_nxt */
  function Nxt(i: nat): nat
    requires i < 295
  {
    if i < 147 then (if i < 73 then (if i < 36 then (if i < 18 then (if i < 9 then (if i < 4 then (if i < 2
    then (if i < 1 then 0 else 4) else (if i < 3 then 5 else 6)) else (if i < 6 then (if i < 5 then 5 else 7)
    else (if i < 7 then 4 else (if i < 8 then 8 else 9)))) else (if i < 13 then (if i < 11 then (if i < 10 then
    10 else 11) else (if i < 12 then 9 else 12)) else (if i < 15 then (if i < 14 then 13 else 14) else (if i <
    16 then 15 else (if i < 17 then 15 else 16))))) else (if i < 27 then (if i < 22 then (if i < 20 then (if i
    < 19 then 9 else 17) else 8) else (if i < 24 then (if i < 23 then 8 else 18) else (if i < 25 then 8 else
    (if i < 26 then 8 else 4)))) else (if i < 31 then (if i < 29 then (if i < 28 then 8 else 19) else (if i <
    30 then 21 else 23)) else (if i < 33 then (if i < 32 then 21 else 26) else (if i < 34 then 28 else 26)))))
    else (if i < 54 then (if i < 45 then (if i < 40 then (if i < 38 then (if i < 37 then 30 else 31) else 31)
    else (if i < 42 then 26 else (if i < 43 then 26 else (if i < 44 then 26 else 71)))) else (if i < 49 then
    (if i < 47 then 39 else (if i < 48 then 39 else 23)) else (if i < 51 then (if i < 50 then 29 else 26) else
    (if i < 52 then 24 else (if i < 53 then 32 else 33))))) else (if i < 63 then (if i < 58 then (if i < 56
    then (if i < 55 then 33 else 34) else (if i < 57 then 72 else 26)) else (if i < 60 then (if i < 59 then 26
    else 21) else (if i < 61 then 35 else (if i < 62 then 21 else 36)))) else (if i < 68 then (if i < 65 then
    (if i < 64 then 37 else 38) else (if i < 66 then 40 else (if i < 67 then 36 else 43))) else (if i < 70 then
    (if i < 69 then 44 else 24) else (if i < 71 then 41 else (if i < 72 then 28 else 32))))))) else (if i < 110
    then (if i < 91 then (if i < 82 then (if i < 77 then (if i < 75 then 50 else (if i < 76 then 52 else 28))
    else (if i < 79 then 23 else (if i < 80 then 52 else (if i < 81 then 35 else 56)))) else (if i < 86 then
    (if i < 84 then (if i < 83 then 56 else 44) else (if i < 85 then 28 else 42)) else (if i < 88 then (if i <
    87 then 71 else 29) else 31))) else (if i < 100 then (if i < 95 then (if i < 93 then (if i < 92 then 42
    else 29) else (if i < 94 then 59 else 44)) else (if i < 97 then (if i < 96 then 48 else 49) else (if i < 98
    then 49 else 24))) else (if i < 105 then (if i < 102 then (if i < 101 then 29 else 49) else (if i < 103
    then 43 else (if i < 104 then 44 else 51))) else (if i < 107 then 51 else (if i < 108 then 36 else (if i <
    109 then 37 else 59)))))) else (if i < 128 then (if i < 119 then (if i < 114 then (if i < 112 then (if i <
    111 then 44 else 36) else (if i < 113 then 65 else 44)) else (if i < 116 then (if i < 115 then 54 else 55)
    else (if i < 117 then 55 else 51))) else (if i < 123 then (if i < 121 then (if i < 120 then 51 else 59)
    else (if i < 122 then 44 else 64)) else (if i < 125 then 64 else (if i < 126 then 58 else (if i < 127 then
    58 else 57))))) else (if i < 137 then (if i < 132 then (if i < 130 then 57 else (if i < 131 then 58 else
    59)) else (if i < 134 then (if i < 133 then 44 else 42) else 64)) else (if i < 142 then (if i < 139 then
    (if i < 138 then 52 else 72) else (if i < 140 then 59 else (if i < 141 then 44 else 47))) else (if i < 144
    then (if i < 143 then 66 else 60) else (if i < 145 then 60 else (if i < 146 then 42 else 44)))))))) else
    (if i < 221 then (if i < 184 then (if i < 165 then (if i < 156 then (if i < 151 then (if i < 149 then (if i
    < 148 then 59 else 69) else (if i < 150 then 26 else 72)) else (if i < 153 then (if i < 152 then 20 else
    61) else (if i < 154 then 62 else (if i < 155 then 63 else 72)))) else (if i < 160 then (if i < 158 then
    (if i < 157 then 61 else 57) else 57) else (if i < 162 then (if i < 161 then 66 else 72) else (if i < 163
    then 72 else (if i < 164 then 72 else 66))))) else (if i < 174 then (if i < 169 then (if i < 167 then 49
    else (if i < 168 then 72 else 61)) else (if i < 171 then (if i < 170 then 62 else 49) else (if i < 172 then
    44 else (if i < 173 then 61 else 72)))) else (if i < 179 then 72 else (if i < 181 then 72 else (if i < 182
    then 72 else 67))))) else (if i < 202 then (if i < 193 then (if i < 188 then (if i < 186 then (if i < 185
    then 67 else 72) else 72) else (if i < 190 then 67 else (if i < 191 then 67 else 22))) else (if i < 197
    then 22 else (if i < 199 then 22 else (if i < 200 then 25 else 72)))) else (if i < 211 then (if i < 206
    then (if i < 204 then 25 else (if i < 205 then 25 else 27)) else 27) else (if i < 216 then (if i < 213 then
    27 else 42) else 42)))) else (if i < 258 then (if i < 239 then (if i < 230 then (if i < 225 then (if i <
    223 then (if i < 222 then 45 else 72) else 45) else (if i < 227 then 45 else (if i < 228 then 45 else (if i
    < 229 then 45 else 46)))) else (if i < 234 then (if i < 232 then (if i < 231 then 72 else 46) else 46) else
    (if i < 236 then 46 else (if i < 237 then 46 else 34)))) else (if i < 248 then (if i < 243 then (if i < 241
    then (if i < 240 then 72 else 34) else (if i < 242 then 51 else 72)) else (if i < 245 then (if i < 244 then
    51 else 53) else (if i < 246 then 53 else (if i < 247 then 53 else 57)))) else (if i < 253 then (if i < 250
    then (if i < 249 then 72 else 57) else 68) else 68))) else (if i < 276 then (if i < 267 then (if i < 262
    then 70 else (if i < 264 then 70 else (if i < 265 then 70 else (if i < 266 then 70 else 3)))) else 72) else
    72)))
  }

  /** yy_chk */
  function Chk(i: nat): nat
    requires i < 295
  {
    if i < 147 then (if i < 73 then (if i < 36 then (if i < 18 then (if i < 9 then (if i < 4 then (if i < 2
    then (if i < 1 then 0 else 1) else 1) else 1) else 1) else (if i < 27 then 1 else (if i < 31 then (if i <
    29 then 1 else (if i < 30 then 5 else 7)) else (if i < 33 then (if i < 32 then 5 else 10) else (if i < 34
    then 11 else 12))))) else (if i < 54 then (if i < 45 then (if i < 40 then 13 else (if i < 42 then (if i <
    41 then 19 else 10) else (if i < 43 then 16 else (if i < 44 then 16 else 70)))) else (if i < 49 then (if i
    < 47 then 15 else (if i < 48 then 15 else 22)) else (if i < 51 then (if i < 50 then 11 else 19) else (if i
    < 52 then 7 else 14)))) else (if i < 63 then (if i < 58 then (if i < 56 then 14 else (if i < 57 then 15
    else 17)) else (if i < 60 then (if i < 59 then 17 else 21) else (if i < 61 then 14 else (if i < 62 then 21
    else 14)))) else (if i < 68 then (if i < 65 then 14 else (if i < 66 then 18 else (if i < 67 then 14 else
    20))) else (if i < 70 then (if i < 69 then 20 else 22) else (if i < 71 then 18 else (if i < 72 then 27 else
    34))))))) else (if i < 110 then (if i < 91 then (if i < 82 then (if i < 77 then (if i < 75 then 35 else (if
    i < 76 then 37 else 41)) else (if i < 79 then (if i < 78 then 40 else 45) else (if i < 80 then 37 else (if
    i < 81 then 34 else 48)))) else (if i < 86 then (if i < 84 then (if i < 83 then 48 else 65) else (if i < 85
    then 46 else 65)) else (if i < 88 then (if i < 87 then 69 else 27) else 31))) else (if i < 100 then (if i <
    95 then (if i < 93 then (if i < 92 then 60 else 41) else 66) else (if i < 97 then 31 else (if i < 98 then
    31 else (if i < 99 then 40 else 45)))) else (if i < 105 then (if i < 102 then (if i < 101 then 46 else 31)
    else (if i < 103 then 43 else (if i < 104 then 43 else 50))) else (if i < 107 then 50 else (if i < 108 then
    53 else (if i < 109 then 53 else 59)))))) else (if i < 128 then (if i < 119 then (if i < 114 then (if i <
    112 then (if i < 111 then 59 else 53) else (if i < 113 then 59 else 42)) else (if i < 116 then 43 else (if
    i < 117 then 43 else 51))) else (if i < 123 then (if i < 121 then (if i < 120 then 51 else 61) else (if i <
    122 then 61 else 55)) else (if i < 125 then 55 else (if i < 126 then 51 else (if i < 127 then 51 else
    56))))) else (if i < 137 then (if i < 132 then (if i < 130 then 56 else (if i < 131 then 51 else 54)) else
    (if i < 134 then (if i < 133 then 54 else 55) else 64)) else (if i < 142 then (if i < 139 then (if i < 138
    then 36 else 33) else (if i < 140 then 62 else (if i < 141 then 62 else 30))) else (if i < 144 then (if i <
    143 then 61 else 54) else (if i < 145 then 54 else (if i < 146 then 64 else 68)))))))) else (if i < 221
    then (if i < 184 then (if i < 165 then (if i < 156 then (if i < 151 then (if i < 149 then (if i < 148 then
    67 else 68) else (if i < 150 then 9 else 3)) else (if i < 153 then (if i < 152 then 2 else 54) else (if i <
    154 then 54 else (if i < 155 then 54 else 0)))) else (if i < 160 then (if i < 158 then (if i < 157 then 54
    else 57) else 57) else (if i < 162 then (if i < 161 then 62 else 0) else (if i < 163 then 0 else (if i <
    164 then 0 else 62))))) else (if i < 174 then (if i < 169 then (if i < 167 then 57 else (if i < 168 then 0
    else 67)) else (if i < 171 then (if i < 170 then 67 else 57) else (if i < 172 then 63 else (if i < 173 then
    67 else 0)))) else (if i < 179 then 0 else (if i < 181 then 0 else (if i < 182 then 0 else 63))))) else (if
    i < 202 then (if i < 193 then (if i < 188 then (if i < 186 then (if i < 185 then 63 else 0) else 0) else
    (if i < 190 then 63 else (if i < 191 then 63 else 73))) else (if i < 197 then 73 else (if i < 199 then 73
    else (if i < 200 then 74 else 0)))) else (if i < 211 then (if i < 206 then (if i < 204 then 74 else (if i <
    205 then 74 else 75)) else 75) else (if i < 216 then (if i < 213 then 75 else 76) else 76)))) else (if i <
    258 then (if i < 239 then (if i < 230 then (if i < 225 then (if i < 223 then (if i < 222 then 77 else 0)
    else 77) else (if i < 227 then 77 else (if i < 228 then 77 else (if i < 229 then 77 else 78)))) else (if i
    < 234 then (if i < 232 then (if i < 231 then 0 else 78) else 78) else (if i < 236 then 78 else (if i < 237
    then 78 else 79)))) else (if i < 248 then (if i < 243 then (if i < 241 then (if i < 240 then 0 else 79)
    else (if i < 242 then 80 else 0)) else (if i < 245 then (if i < 244 then 80 else 81) else (if i < 246 then
    81 else (if i < 247 then 81 else 82)))) else (if i < 253 then (if i < 250 then (if i < 249 then 0 else 82)
    else 83) else 83))) else (if i < 276 then (if i < 267 then (if i < 262 then 84 else (if i < 264 then 84
    else (if i < 265 then 84 else (if i < 266 then 84 else 72)))) else 72) else 72)))
  }

  /** How many default states lie between a state and the jam state. */
  function Depth(i: nat): nat
    requires i < 85
  {
    if i < 42 then (if i < 21 then (if i < 10 then (if i < 5 then (if i < 2 then (if i < 1 then 0 else 1) else
    (if i < 3 then 2 else 1)) else (if i < 7 then 1 else (if i < 8 then 2 else (if i < 9 then 2 else 1)))) else
    (if i < 15 then (if i < 12 then (if i < 11 then 1 else 2) else 1) else (if i < 18 then (if i < 16 then 2
    else 1) else (if i < 19 then 2 else (if i < 20 then 1 else 2))))) else (if i < 31 then (if i < 26 then (if
    i < 23 then (if i < 22 then 1 else 2) else (if i < 24 then 1 else 2)) else (if i < 28 then (if i < 27 then
    1 else 2) else (if i < 29 then 1 else (if i < 30 then 2 else 1)))) else (if i < 36 then (if i < 33 then (if
    i < 32 then 1 else 2) else 2) else (if i < 39 then (if i < 37 then 1 else (if i < 38 then 1 else 2)) else
    (if i < 40 then 3 else 2))))) else (if i < 63 then (if i < 52 then (if i < 47 then (if i < 44 then 2 else
    (if i < 45 then 1 else 2)) else (if i < 49 then (if i < 48 then 1 else 2) else 1)) else (if i < 57 then (if
    i < 54 then (if i < 53 then 1 else 2) else (if i < 55 then 2 else (if i < 56 then 3 else 1))) else (if i <
    60 then (if i < 58 then 1 else (if i < 59 then 1 else 2)) else (if i < 61 then 3 else 2)))) else (if i < 74
    then (if i < 68 then (if i < 65 then (if i < 64 then 2 else 3) else (if i < 66 then 2 else (if i < 67 then
    2 else 3))) else (if i < 71 then 2 else (if i < 72 then 1 else (if i < 73 then 0 else 1)))) else 1))
  }

  function Genksyms(): Tables {
    Tables(
      seq(73, i requires 0 <= i < 73 => Accept(i)),
      seq(256, i requires 0 <= i < 256 => Ec(i)),
      seq(29, i requires 0 <= i < 29 => Meta(i)),
      seq(85, i requires 0 <= i < 85 => Base(i)),
      seq(85, i requires 0 <= i < 85 => Def(i)),
      seq(295, i requires 0 <= i < 295 => Nxt(i)),
      seq(295, i requires 0 <= i < 295 => Chk(i)),
      72, 3, 14)
  }

  /** What holds of the default states and of the transitions stored for each state. */
  lemma TableFacts()
    ensures forall s: nat :: 0 < s < 85 && s != 72 ==> 0 < Def(s) < 85 && Def(s) != 3 && Depth(Def(s)) < Depth(s) < 8
    ensures forall s: nat :: s < 85 ==> Base(s) <= 266
    ensures forall c: nat :: c < 29 ==> Meta(c) < 29 && (c > 0 ==> Meta(c) > 0)
    ensures Meta(0) == 0 && Base(72) == 266
    ensures forall i: nat :: 266 <= i < 295 ==> Chk(i) == 72 && Nxt(i) == if i == 266 then 3 else 72
    ensures forall i: nat :: i < 295 && i != 266 && Chk(i) != 0 ==> 3 < Nxt(i) <= 72
  {
  }

  /** No state but the end-of-buffer state stores a transition on the end-of-buffer character,
      and a state without transitions defaults to the jam state at once. */
  lemma StateFacts()
    ensures forall s: nat :: 0 < s < 85 && s != 3 && s != 72 ==> Chk(Base(s)) != s
    ensures Chk(Base(3)) == 3 && Nxt(Base(3)) == 72
    ensures forall s: nat :: 0 < s < 73 && Base(s) == 266 && s != 72 ==> Def(s) == 72
    ensures Def(3) == 72 && (forall i: nat :: Base(3) < i < Base(3) + 29 ==> Chk(i) != 3)
  {
  }

  lemma AcceptFacts()
    ensures Accept(72) == 0 && Accept(3) == 14 && Accept(1) == 0 && Accept(2) == 0
    ensures forall s: nat :: s < 73 && s != 3 ==> Accept(s) != 14
    ensures Base(1) == 0 && Base(2) == 145 && Base(3) == 150 && Def(2) == 1
    ensures forall c: nat :: 0 < c < 29 ==> Chk(c) == 1 && Nxt(c) < 73 && Accept(Nxt(c)) != 0
    ensures forall i: nat :: 145 < i < 174 && Chk(i) == 2 ==> Nxt(i) < 73 && Accept(Nxt(i)) != 0
    ensures Ec(0) == 0 && forall b: nat :: 0 < b < 256 ==> 0 < Ec(b) < 29
  {
  }

  /** Every lookup ends, and leads where it should. */
  lemma {:induction false} LookupEnds(s: nat, c: nat, fuel: nat)
    requires 0 < s < 85 && c < 29 && fuel > Depth(s)
    ensures var r := Lookup(Genksyms(), s, c, fuel);
            r.Some? && (c > 0 ==> 3 < r.value <= 72) && (c == 0 ==> r.value == if s == 3 then 72 else 3)
    decreases fuel
  {
    TableFacts();
    StateFacts();
    if Chk(Base(s) + c) != s {
      LookupEnds(Def(s), if Def(s) < 73 then c else Meta(c), fuel - 1);
    }
  }

  lemma LookupJams(c: nat, fuel: nat)
    requires 0 < c < 29 && fuel > 0
    ensures Lookup(Genksyms(), 72, c, fuel) == Some(72)
  {
  }

  lemma {:induction false} GenksymsShape()
    ensures Shape(Genksyms())
  {
    AcceptFacts();
  }

  lemma {:induction false} GenksymsSteps()
    requires Shape(Genksyms())
    ensures Steps(Genksyms())
  {
    var t := Genksyms();
    TableFacts();
    StateFacts();
    AcceptFacts();
    forall s: nat, c: nat | Live(t, s) && 0 < c < CLASSES
      ensures var n := Lookup(t, s, c, CHAIN);
              n.Some? && (Live(t, n.value) || n.value == t.jam) && (Ends(t, s) ==> n.value == t.jam)
    {
      LookupEnds(s, c, CHAIN);
      if Base(s) == 266 {
        LookupJams(c, CHAIN - 1);
      }
    }
    forall s: nat | Live(t, s) ensures Lookup(t, s, 0, CHAIN) == Some(t.endOfBuffer) {
      LookupEnds(s, 0, CHAIN);
    }
    forall c: nat | c < CLASSES ensures Lookup(t, t.endOfBuffer, c, CHAIN) == Some(t.jam) {
      LookupEnds(3, c, CHAIN);
      if c > 0 {
        LookupJams(c, CHAIN - 1);
      }
    }
  }

  lemma {:induction false} GenksymsAccepts()
    requires Shape(Genksyms())
    ensures Accepts(Genksyms())
  {
    var t := Genksyms();
    AcceptFacts();
    TableFacts();
    forall s: nat, c: nat | (s == 1 || s == 2) && 0 < c < CLASSES
      ensures var n := Lookup(t, s, c, CHAIN);
              n.Some? && n.value < |t.accept| && t.accept[n.value] != 0
    {
      assert Lookup(t, 1, c, CHAIN - 1) == Some(Nxt(c)) == Lookup(t, 1, c, CHAIN);
    }
  }

  /** The shipped tables satisfy everything the scanner relies on. */
  lemma {:induction false} GenksymsWellFormed()
    ensures WellFormed(Genksyms())
  {
    hide Shape, Steps, Accepts;
    GenksymsShape();
    GenksymsSteps();
    GenksymsAccepts();
  }
}
