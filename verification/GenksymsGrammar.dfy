/** The tables and the grammar of the genksyms parser, each array as a decision tree on its
    index, and the items of each state. */
module GenksymsGrammar {
  import opened LrTables

  /** yyr1 */
  function R1(i: nat): nat
    requires i < 134
  {
    if i < 66 then (if i < 33 then (if i < 16 then (if i < 8 then (if i < 4 then (if i < 2 then (if i < 1 then
    0 else 54) else 55) else (if i < 6 then (if i < 5 then 57 else 56) else (if i < 7 then 59 else 58))) else
    (if i < 9 then 60 else 58)) else (if i < 24 then (if i < 19 then (if i < 17 then 61 else 62) else (if i <
    21 then 63 else (if i < 22 then 64 else 65))) else (if i < 28 then (if i < 26 then 66 else 67) else 68)))
    else (if i < 46 then 69 else (if i < 57 then 70 else (if i < 60 then (if i < 58 then 71 else 72) else (if i
    < 62 then 73 else 74))))) else (if i < 102 then (if i < 84 then (if i < 75 then (if i < 68 then 75 else 76)
    else (if i < 77 then 77 else 78)) else (if i < 92 then (if i < 87 then 79 else (if i < 89 then 80 else (if
    i < 91 then 81 else 82))) else (if i < 94 then 83 else 84))) else (if i < 118 then (if i < 110 then (if i <
    106 then (if i < 103 then 85 else (if i < 105 then 86 else 87)) else (if i < 108 then 88 else 89)) else (if
    i < 114 then (if i < 112 then 90 else 91) else (if i < 116 then 92 else 93))) else (if i < 126 then (if i <
    122 then (if i < 121 then 94 else 95) else (if i < 124 then 96 else 97)) else (if i < 130 then (if i < 128
    then 98 else 99) else (if i < 131 then 100 else (if i < 133 then 101 else 102))))))
  }

  /** yyr2 */
  function R2(i: nat): nat
    requires i < 134
  {
    if i < 67 then (if i < 35 then (if i < 17 then (if i < 8 then (if i < 4 then (if i < 2 then (if i < 1 then
    0 else 2) else (if i < 3 then 1 else 2)) else (if i < 6 then (if i < 5 then 0 else 2) else (if i < 7 then 0
    else 4))) else (if i < 10 then (if i < 9 then 0 else 3) else (if i < 14 then 1 else (if i < 16 then 2 else
    3)))) else (if i < 26 then (if i < 21 then (if i < 18 then 0 else (if i < 20 then 1 else 3)) else (if i <
    23 then (if i < 22 then 4 else 0) else (if i < 25 then 1 else 2))) else 1)) else (if i < 46 then (if i < 40
    then (if i < 37 then (if i < 36 then 4 else 1) else 2) else (if i < 43 then 3 else 2)) else (if i < 57 then
    1 else (if i < 62 then (if i < 59 then (if i < 58 then 2 else 0) else (if i < 61 then 1 else 2)) else (if i
    < 66 then 1 else 2))))) else (if i < 100 then (if i < 82 then (if i < 73 then (if i < 70 then 1 else (if i
    < 72 then 4 else 2)) else (if i < 76 then (if i < 75 then 3 else 2) else (if i < 79 then 1 else (if i < 81
    then 4 else 2)))) else (if i < 91 then (if i < 86 then (if i < 84 then 3 else (if i < 85 then 2 else 1))
    else (if i < 88 then (if i < 87 then 3 else 0) else (if i < 90 then 1 else 3))) else (if i < 95 then (if i
    < 93 then 2 else (if i < 94 then 1 else 0)) else (if i < 97 then 1 else (if i < 99 then 4 else 2))))) else
    (if i < 117 then (if i < 108 then (if i < 104 then (if i < 103 then 3 else 0) else (if i < 106 then (if i <
    105 then 1 else 2) else 3)) else (if i < 112 then (if i < 109 then 0 else (if i < 111 then 1 else 2)) else
    (if i < 114 then (if i < 113 then 3 else 2) else (if i < 115 then 0 else 1)))) else (if i < 125 then (if i
    < 121 then (if i < 118 then 3 else (if i < 120 then 2 else 1)) else (if i < 123 then (if i < 122 then 2
    else 0) else (if i < 124 then 2 else 3))) else (if i < 129 then (if i < 127 then (if i < 126 then 4 else 1)
    else (if i < 128 then 3 else 1)) else (if i < 131 then (if i < 130 then 3 else 2) else (if i < 132 then 0
    else (if i < 133 then 1 else 5)))))))
  }

  /** yyprhs */
  function Prhs(i: nat): nat
    requires i < 134
  {
    if i < 67 then (if i < 33 then (if i < 16 then (if i < 8 then (if i < 4 then (if i < 2 then 0 else (if i <
    3 then 3 else 5)) else (if i < 6 then (if i < 5 then 8 else 9) else (if i < 7 then 12 else 13))) else (if i
    < 12 then (if i < 10 then (if i < 9 then 18 else 19) else (if i < 11 then 23 else 25)) else (if i < 14 then
    (if i < 13 then 27 else 29) else (if i < 15 then 31 else 34)))) else (if i < 24 then (if i < 20 then (if i
    < 18 then (if i < 17 then 37 else 41) else (if i < 19 then 42 else 44)) else (if i < 22 then (if i < 21
    then 46 else 50) else (if i < 23 then 55 else 56))) else (if i < 28 then (if i < 26 then (if i < 25 then 58
    else 60) else (if i < 27 then 63 else 65)) else (if i < 30 then (if i < 29 then 67 else 69) else (if i < 31
    then 71 else (if i < 32 then 73 else 75)))))) else (if i < 50 then (if i < 41 then (if i < 37 then (if i <
    35 then (if i < 34 then 77 else 79) else (if i < 36 then 81 else 86)) else (if i < 39 then (if i < 38 then
    88 else 91) else (if i < 40 then 94 else 97))) else (if i < 45 then (if i < 43 then (if i < 42 then 101
    else 105) else (if i < 44 then 109 else 112)) else (if i < 47 then (if i < 46 then 115 else 118) else (if i
    < 48 then 120 else (if i < 49 then 122 else 124))))) else (if i < 58 then (if i < 54 then (if i < 52 then
    (if i < 51 then 126 else 128) else (if i < 53 then 130 else 132)) else (if i < 56 then (if i < 55 then 134
    else 136) else (if i < 57 then 138 else 140))) else (if i < 62 then (if i < 60 then (if i < 59 then 143
    else 144) else (if i < 61 then 146 else 148)) else (if i < 64 then (if i < 63 then 151 else 153) else (if i
    < 65 then 155 else (if i < 66 then 157 else 159))))))) else (if i < 100 then (if i < 83 then (if i < 75
    then (if i < 71 then (if i < 69 then (if i < 68 then 162 else 164) else (if i < 70 then 166 else 168)) else
    (if i < 73 then (if i < 72 then 173 else 178) else (if i < 74 then 181 else 185))) else (if i < 79 then (if
    i < 77 then (if i < 76 then 189 else 192) else (if i < 78 then 194 else 196)) else (if i < 81 then (if i <
    80 then 198 else 203) else (if i < 82 then 208 else 211)))) else (if i < 91 then (if i < 87 then (if i < 85
    then (if i < 84 then 215 else 219) else (if i < 86 then 222 else 224)) else (if i < 89 then (if i < 88 then
    228 else 229) else (if i < 90 then 231 else 233))) else (if i < 95 then (if i < 93 then (if i < 92 then 237
    else 240) else (if i < 94 then 243 else 245)) else (if i < 97 then (if i < 96 then 246 else 248) else (if i
    < 98 then 250 else (if i < 99 then 255 else 260)))))) else (if i < 117 then (if i < 108 then (if i < 104
    then (if i < 102 then (if i < 101 then 263 else 267) else (if i < 103 then 271 else 275)) else (if i < 106
    then (if i < 105 then 276 else 278) else (if i < 107 then 281 else 285))) else (if i < 112 then (if i < 110
    then (if i < 109 then 289 else 290) else (if i < 111 then 292 else 294)) else (if i < 114 then (if i < 113
    then 297 else 301) else (if i < 115 then 304 else (if i < 116 then 305 else 307))))) else (if i < 125 then
    (if i < 121 then (if i < 119 then (if i < 118 then 309 else 313) else (if i < 120 then 316 else 319)) else
    (if i < 123 then (if i < 122 then 321 else 324) else (if i < 124 then 325 else 328))) else (if i < 129 then
    (if i < 127 then (if i < 126 then 332 else 337) else (if i < 128 then 339 else 343)) else (if i < 131 then
    (if i < 130 then 345 else 349) else (if i < 132 then 352 else (if i < 133 then 353 else 355)))))))
  }

  /** yyrhs */
  function Rhs(i: nat): int
    requires i < 361
  {
    if i < 180 then (if i < 90 then (if i < 45 then (if i < 22 then (if i < 11 then (if i < 5 then (if i < 2
    then (if i < 1 then 55 else 0) else (if i < 3 then -1 else (if i < 4 then 56 else -1))) else (if i < 7 then
    (if i < 6 then 55 else 56) else (if i < 9 then -1 else (if i < 10 then 57 else 58)))) else (if i < 16 then
    (if i < 13 then -1 else (if i < 14 then 12 else (if i < 15 then 23 else 59))) else (if i < 19 then (if i <
    17 then 61 else -1) else (if i < 20 then 23 else (if i < 21 then 60 else 61))))) else (if i < 33 then (if i
    < 27 then (if i < 24 then (if i < 23 then -1 else 61) else (if i < 25 then -1 else (if i < 26 then 85 else
    -1))) else (if i < 30 then (if i < 28 then 100 else (if i < 29 then -1 else 102)) else (if i < 31 then -1
    else (if i < 32 then 1 else 45)))) else (if i < 39 then (if i < 36 then (if i < 34 then -1 else (if i < 35
    then 1 else 46)) else (if i < 37 then -1 else (if i < 38 then 65 else 62))) else (if i < 42 then (if i < 40
    then 45 else -1) else (if i < 43 then 63 else (if i < 44 then -1 else 64)))))) else (if i < 67 then (if i <
    56 then (if i < 50 then (if i < 47 then (if i < 46 then -1 else 63) else (if i < 48 then 47 else (if i < 49
    then 64 else -1))) else (if i < 53 then (if i < 51 then 75 else (if i < 52 then 101 else 96)) else (if i <
    54 then 86 else -1))) else (if i < 61 then (if i < 58 then (if i < 57 then 66 else -1) else (if i < 59 then
    67 else (if i < 60 then -1 else 66))) else (if i < 64 then (if i < 62 then 67 else (if i < 63 then -1 else
    68)) else (if i < 65 then -1 else (if i < 66 then 69 else -1))))) else (if i < 78 then (if i < 72 then (if
    i < 69 then (if i < 68 then 5 else -1) else (if i < 70 then 17 else (if i < 71 then -1 else 21))) else (if
    i < 75 then (if i < 73 then -1 else (if i < 74 then 11 else -1)) else (if i < 76 then 14 else (if i < 77
    then -1 else 70)))) else (if i < 84 then (if i < 81 then (if i < 79 then -1 else (if i < 80 then 74 else
    -1)) else (if i < 82 then 28 else (if i < 83 then 48 else 82))) else (if i < 87 then (if i < 85 then 49
    else (if i < 86 then -1 else 32)) else (if i < 88 then -1 else (if i < 89 then 22 else 38))))))) else (if i
    < 135 then (if i < 112 then (if i < 101 then (if i < 95 then (if i < 92 then (if i < 91 then -1 else 24)
    else (if i < 93 then 38 else (if i < 94 then -1 else 10))) else (if i < 98 then (if i < 96 then 38 else (if
    i < 97 then -1 else 22)) else (if i < 99 then 38 else (if i < 100 then 88 else -1)))) else (if i < 106 then
    (if i < 103 then (if i < 102 then 24 else 38) else (if i < 104 then 88 else (if i < 105 then -1 else 10)))
    else (if i < 109 then (if i < 107 then 38 else (if i < 108 then 97 else -1)) else (if i < 110 then 10 else
    (if i < 111 then 97 else -1))))) else (if i < 123 then (if i < 117 then (if i < 114 then (if i < 113 then
    22 else 88) else (if i < 115 then -1 else (if i < 116 then 24 else 88))) else (if i < 120 then (if i < 118
    then -1 else (if i < 119 then 7 else -1)) else (if i < 121 then 19 else (if i < 122 then -1 else 15))))
    else (if i < 129 then (if i < 126 then (if i < 124 then -1 else (if i < 125 then 16 else -1)) else (if i <
    127 then 20 else (if i < 128 then -1 else 25))) else (if i < 132 then (if i < 130 then -1 else (if i < 131
    then 13 else -1)) else (if i < 133 then 9 else (if i < 134 then -1 else 26)))))) else (if i < 157 then (if
    i < 146 then (if i < 140 then (if i < 137 then (if i < 136 then -1 else 6) else (if i < 138 then -1 else
    (if i < 139 then 42 else -1))) else (if i < 142 then (if i < 141 then 50 else 72) else (if i < 144 then -1
    else (if i < 145 then 73 else -1)))) else (if i < 151 then (if i < 148 then (if i < 147 then 74 else -1)
    else (if i < 149 then 73 else (if i < 150 then 74 else -1))) else (if i < 154 then (if i < 152 then 8 else
    (if i < 153 then -1 else 27)) else (if i < 155 then -1 else (if i < 156 then 31 else -1))))) else (if i <
    168 then (if i < 162 then (if i < 159 then (if i < 158 then 18 else -1) else (if i < 160 then 71 else (if i
    < 161 then 75 else -1))) else (if i < 165 then (if i < 163 then 76 else (if i < 164 then -1 else 38)) else
    (if i < 166 then -1 else (if i < 167 then 42 else -1)))) else (if i < 174 then (if i < 171 then (if i < 169
    then 76 else (if i < 170 then 48 else 79)) else (if i < 172 then 49 else (if i < 173 then -1 else 76)))
    else (if i < 177 then (if i < 175 then 48 else (if i < 176 then 1 else 49)) else (if i < 178 then -1 else
    (if i < 179 then 76 else 34)))))))) else (if i < 270 then (if i < 225 then (if i < 202 then (if i < 191
    then (if i < 185 then (if i < 182 then (if i < 181 then -1 else 48) else (if i < 183 then 75 else (if i <
    184 then 49 else -1))) else (if i < 188 then (if i < 186 then 48 else (if i < 187 then 1 else 49)) else (if
    i < 189 then -1 else (if i < 190 then 71 else 77)))) else (if i < 196 then (if i < 193 then (if i < 192
    then -1 else 78) else (if i < 194 then -1 else (if i < 195 then 38 else -1))) else (if i < 199 then (if i <
    197 then 42 else (if i < 198 then -1 else 78)) else (if i < 200 then 48 else (if i < 201 then 79 else
    49))))) else (if i < 213 then (if i < 207 then (if i < 204 then (if i < 203 then -1 else 78) else (if i <
    205 then 48 else (if i < 206 then 1 else 49))) else (if i < 210 then (if i < 208 then -1 else (if i < 209
    then 78 else 34)) else (if i < 211 then -1 else (if i < 212 then 48 else 77)))) else (if i < 219 then (if i
    < 216 then (if i < 214 then 49 else (if i < 215 then -1 else 48)) else (if i < 217 then 1 else (if i < 218
    then 49 else -1))) else (if i < 222 then (if i < 220 then 80 else (if i < 221 then 37 else -1)) else (if i
    < 223 then 80 else (if i < 224 then -1 else 81)))))) else (if i < 247 then (if i < 236 then (if i < 230
    then (if i < 227 then (if i < 226 then 47 else 37) else (if i < 229 then -1 else 81)) else (if i < 233 then
    (if i < 231 then -1 else (if i < 232 then 82 else -1)) else (if i < 234 then 81 else (if i < 235 then 47
    else 82)))) else (if i < 241 then (if i < 238 then (if i < 237 then -1 else 66) else (if i < 239 then 83
    else (if i < 240 then -1 else 71))) else (if i < 244 then (if i < 242 then 83 else (if i < 243 then -1 else
    84)) else (if i < 246 then -1 else 38)))) else (if i < 258 then (if i < 252 then (if i < 249 then (if i <
    248 then -1 else 42) else (if i < 250 then -1 else (if i < 251 then 84 else 48))) else (if i < 255 then (if
    i < 253 then 79 else (if i < 254 then 49 else -1)) else (if i < 256 then 84 else (if i < 257 then 48 else
    1)))) else (if i < 264 then (if i < 261 then (if i < 259 then 49 else (if i < 260 then -1 else 84)) else
    (if i < 262 then 34 else (if i < 263 then -1 else 48))) else (if i < 267 then (if i < 265 then 83 else (if
    i < 266 then 49 else -1)) else (if i < 268 then 48 else (if i < 269 then 1 else 49))))))) else (if i < 315
    then (if i < 292 then (if i < 281 then (if i < 274 then (if i < 272 then (if i < 271 then -1 else 65) else
    (if i < 273 then 75 else 33)) else (if i < 277 then (if i < 276 then -1 else 87) else (if i < 279 then (if
    i < 278 then -1 else 51) else (if i < 280 then 35 else -1)))) else (if i < 286 then (if i < 283 then (if i
    < 282 then 52 else 89) else (if i < 284 then 46 else (if i < 285 then -1 else 52))) else (if i < 288 then
    (if i < 287 then 1 else 46) else (if i < 290 then -1 else (if i < 291 then 90 else -1))))) else (if i < 303
    then (if i < 297 then (if i < 294 then (if i < 293 then 91 else -1) else (if i < 295 then 90 else (if i <
    296 then 91 else -1))) else (if i < 300 then (if i < 298 then 65 else (if i < 299 then 92 else 45)) else
    (if i < 301 then -1 else (if i < 302 then 1 else 45)))) else (if i < 309 then (if i < 306 then (if i < 305
    then -1 else 93) else (if i < 307 then -1 else (if i < 308 then 94 else -1))) else (if i < 312 then (if i <
    310 then 93 else (if i < 311 then 47 else 94)) else (if i < 313 then -1 else (if i < 314 then 77 else
    96)))))) else (if i < 338 then (if i < 326 then (if i < 320 then (if i < 317 then (if i < 316 then -1 else
    38) else (if i < 318 then 95 else (if i < 319 then -1 else 95))) else (if i < 323 then (if i < 321 then -1
    else (if i < 322 then 53 else 35)) else (if i < 325 then -1 else 96))) else (if i < 332 then (if i < 329
    then (if i < 327 then 31 else (if i < 328 then -1 else 52)) else (if i < 330 then 98 else (if i < 331 then
    46 else -1))) else (if i < 335 then (if i < 333 then 52 else (if i < 334 then 98 else 47)) else (if i < 336
    then 46 else (if i < 337 then -1 else 99))))) else (if i < 349 then (if i < 343 then (if i < 340 then (if i
    < 339 then -1 else 98) else (if i < 341 then 47 else (if i < 342 then 99 else -1))) else (if i < 346 then
    (if i < 344 then 38 else (if i < 345 then -1 else 38)) else (if i < 347 then 51 else (if i < 348 then 35
    else -1)))) else (if i < 355 then (if i < 351 then (if i < 350 then 30 else 45) else (if i < 353 then -1
    else (if i < 354 then 30 else -1))) else (if i < 358 then (if i < 356 then 29 else (if i < 357 then 48 else
    38)) else (if i < 359 then 49 else (if i < 360 then 45 else -1))))))))
  }

  /** yystos */
  function Stos(i: nat): nat
    requires i < 188
  {
    if i < 94 then (if i < 47 then (if i < 23 then (if i < 11 then (if i < 5 then (if i < 2 then (if i < 1 then
    0 else 55) else (if i < 3 then 56 else (if i < 4 then 57 else 0))) else (if i < 8 then (if i < 6 then 56
    else (if i < 7 then 1 else 5)) else (if i < 9 then 6 else (if i < 10 then 7 else 8)))) else (if i < 17 then
    (if i < 14 then (if i < 12 then 9 else (if i < 13 then 10 else 11)) else (if i < 15 then 12 else (if i < 16
    then 13 else 14))) else (if i < 20 then (if i < 18 then 15 else (if i < 19 then 16 else 17)) else (if i <
    21 then 18 else (if i < 22 then 19 else 20))))) else (if i < 35 then (if i < 29 then (if i < 26 then (if i
    < 24 then 21 else (if i < 25 then 22 else 23)) else (if i < 27 then 24 else (if i < 28 then 25 else 26)))
    else (if i < 32 then (if i < 30 then 27 else (if i < 31 then 28 else 29)) else (if i < 33 then 30 else (if
    i < 34 then 31 else 32)))) else (if i < 41 then (if i < 38 then (if i < 36 then 42 else (if i < 37 then 58
    else 61)) else (if i < 39 then 65 else (if i < 40 then 66 else 67))) else (if i < 44 then (if i < 42 then
    68 else (if i < 43 then 69 else 70)) else (if i < 45 then 74 else (if i < 46 then 85 else 100)))))) else
    (if i < 70 then (if i < 58 then (if i < 52 then (if i < 49 then (if i < 48 then 102 else 45) else (if i <
    50 then 46 else (if i < 51 then 38 else 52))) else (if i < 55 then (if i < 53 then 97 else (if i < 54 then
    23 else 38)) else (if i < 56 then 52 else (if i < 57 then 88 else 60)))) else (if i < 64 then (if i < 60
    then (if i < 59 then 38 else 88) else (if i < 62 then 48 else (if i < 63 then 45 else 38))) else (if i < 67
    then (if i < 65 then 42 else (if i < 66 then 48 else 50)) else (if i < 68 then 62 else (if i < 69 then 63
    else 64))))) else (if i < 82 then (if i < 76 then (if i < 73 then (if i < 71 then 71 else (if i < 72 then
    75 else 76)) else (if i < 74 then 67 else (if i < 75 then 97 else 38))) else (if i < 79 then (if i < 77
    then 98 else (if i < 78 then 99 else 59)) else (if i < 80 then 88 else (if i < 81 then 1 else 65)))) else
    (if i < 88 then (if i < 85 then (if i < 83 then 89 else (if i < 84 then 90 else 91)) else (if i < 86 then
    61 else (if i < 87 then 65 else 88))) else (if i < 91 then (if i < 89 then 66 else (if i < 90 then 82 else
    38)) else (if i < 92 then 1 else (if i < 93 then 75 else 72))))))) else (if i < 141 then (if i < 117 then
    (if i < 105 then (if i < 99 then (if i < 96 then (if i < 95 then 73 else 74) else (if i < 97 then 45 else
    (if i < 98 then 47 else 75))) else (if i < 102 then (if i < 100 then 30 else (if i < 101 then 33 else 101))
    else (if i < 103 then 34 else (if i < 104 then 48 else 51)))) else (if i < 111 then (if i < 108 then (if i
    < 106 then 46 else (if i < 107 then 47 else 61)) else (if i < 109 then 45 else (if i < 110 then 46 else
    38))) else (if i < 114 then (if i < 112 then 42 else (if i < 113 then 48 else 53)) else (if i < 115 then 71
    else (if i < 116 then 77 else 78))))) else (if i < 129 then (if i < 123 then (if i < 120 then (if i < 118
    then 92 else (if i < 119 then 93 else 94)) else (if i < 121 then 95 else (if i < 122 then 46 else 1))) else
    (if i < 126 then (if i < 124 then 91 else (if i < 125 then 75 else 38)) else (if i < 127 then 42 else (if i
    < 128 then 48 else 71)))) else (if i < 135 then (if i < 131 then (if i < 130 then 83 else 84) else 49) else
    (if i < 138 then (if i < 136 then 74 else (if i < 137 then 64 else 96)) else (if i < 139 then 1 else (if i
    < 140 then 79 else 80)))))) else (if i < 164 then (if i < 152 then (if i < 146 then (if i < 143 then (if i
    < 142 then 81 else 82) else (if i < 144 then 35 else (if i < 145 then 46 else 99))) else (if i < 149 then
    (if i < 147 then 95 else (if i < 148 then 1 else 38)) else (if i < 150 then 77 else (if i < 151 then 35
    else 77)))) else (if i < 158 then (if i < 155 then (if i < 153 then 96 else (if i < 154 then 34 else 48))
    else (if i < 156 then 45 else (if i < 157 then 47 else 1))) else (if i < 161 then (if i < 159 then 42 else
    83) else (if i < 162 then 34 else (if i < 163 then 48 else 45))))) else (if i < 176 then (if i < 170 then
    (if i < 167 then (if i < 165 then 31 else (if i < 166 then 51 else 86)) else (if i < 168 then 87 else 49))
    else (if i < 172 then (if i < 171 then 37 else 47) else (if i < 174 then 49 else (if i < 175 then 1 else
    79)))) else (if i < 182 then (if i < 179 then (if i < 177 then 94 else 49) else (if i < 180 then 1 else (if
    i < 181 then 79 else 35))) else (if i < 184 then (if i < 183 then 37 else 82) else 49)))))
  }

  /** yydefact */
  function Defact(i: nat): nat
    requires i < 188
  {
    if i < 94 then (if i < 47 then (if i < 23 then (if i < 11 then (if i < 5 then (if i < 2 then 4 else (if i <
    3 then 2 else (if i < 4 then 0 else 1))) else (if i < 8 then (if i < 6 then 3 else (if i < 7 then 0 else
    28)) else (if i < 9 then 55 else (if i < 10 then 46 else 62)))) else (if i < 17 then (if i < 14 then (if i
    < 12 then 53 else (if i < 13 then 0 else 31)) else (if i < 15 then 0 else (if i < 16 then 52 else 32)))
    else (if i < 20 then (if i < 18 then 48 else (if i < 19 then 49 else 29)) else (if i < 21 then 65 else (if
    i < 22 then 47 else 50))))) else (if i < 35 then (if i < 29 then (if i < 26 then (if i < 24 then 30 else
    (if i < 25 then 0 else 8)) else (if i < 27 then 0 else (if i < 28 then 51 else 54))) else (if i < 33 then
    (if i < 30 then 63 else 0) else (if i < 34 then 64 else 36))) else (if i < 41 then (if i < 38 then (if i <
    36 then 56 else (if i < 37 then 5 else 10)) else (if i < 39 then 17 else (if i < 40 then 23 else 24))) else
    (if i < 44 then (if i < 42 then 26 else (if i < 43 then 27 else 33)) else (if i < 45 then 34 else (if i <
    46 then 11 else 12)))))) else (if i < 70 then (if i < 58 then (if i < 52 then (if i < 49 then (if i < 48
    then 13 else 14) else (if i < 50 then 15 else (if i < 51 then 39 else 0))) else (if i < 55 then (if i < 53
    then 43 else (if i < 54 then 6 else 37)) else (if i < 56 then 0 else (if i < 57 then 44 else 22)))) else
    (if i < 64 then (if i < 60 then (if i < 59 then 38 else 45) else (if i < 62 then 0 else (if i < 63 then 130
    else 68))) else (if i < 67 then (if i < 65 then 69 else (if i < 66 then 0 else 58)) else (if i < 68 then 0
    else (if i < 69 then 18 else 19))))) else (if i < 82 then (if i < 76 then (if i < 73 then (if i < 71 then 0
    else (if i < 72 then 131 else 67)) else (if i < 74 then 25 else (if i < 75 then 42 else 128))) else (if i <
    79 then (if i < 77 then 0 else (if i < 78 then 126 else 22)) else (if i < 80 then 40 else (if i < 81 then 0
    else 114)))) else (if i < 88 then (if i < 85 then (if i < 84 then 0 else 110) else (if i < 86 then 9 else
    (if i < 87 then 17 else 41))) else (if i < 89 then 94 else (if i < 93 then 0 else 57)))))) else (if i < 141
    then (if i < 117 then (if i < 105 then (if i < 99 then (if i < 96 then (if i < 95 then 59 else 60) else (if
    i < 97 then 16 else (if i < 98 then 0 else 66))) else (if i < 102 then (if i < 100 then 132 else (if i <
    101 then 102 else 122)) else (if i < 103 then 72 else 0))) else (if i < 111 then (if i < 108 then (if i <
    106 then 124 else (if i < 107 then 0 else 7)) else (if i < 109 then 113 else (if i < 110 then 107 else
    77))) else (if i < 115 then (if i < 112 then 78 else 0) else (if i < 116 then 122 else 76)))) else (if i <
    129 then (if i < 123 then (if i < 120 then (if i < 118 then 0 else (if i < 119 then 115 else 116)) else (if
    i < 121 then 120 else (if i < 122 then 106 else 0))) else (if i < 126 then (if i < 124 then 111 else (if i
    < 125 then 131 else 95)) else (if i < 127 then 56 else (if i < 128 then 0 else 94)))) else (if i < 135 then
    (if i < 132 then (if i < 130 then 91 else (if i < 131 then 93 else 35)) else (if i < 133 then 0 else (if i
    < 134 then 74 else 73))) else (if i < 138 then (if i < 136 then 61 else (if i < 137 then 20 else 103)) else
    (if i < 140 then 0 else 85))))) else (if i < 164 then (if i < 152 then (if i < 146 then (if i < 143 then
    (if i < 142 then 88 else 89) else (if i < 144 then 129 else (if i < 145 then 125 else 127))) else (if i <
    149 then (if i < 147 then 119 else (if i < 148 then 0 else 77)) else (if i < 150 then 0 else (if i < 151
    then 121 else 75)))) else (if i < 158 then (if i < 155 then (if i < 153 then 118 else (if i < 154 then 81
    else 0)) else (if i < 156 then 112 else 0)) else (if i < 161 then (if i < 159 then 96 else (if i < 160 then
    0 else 92)) else (if i < 162 then 99 else (if i < 163 then 0 else 133))))) else (if i < 176 then (if i <
    170 then (if i < 167 then (if i < 165 then 123 else (if i < 166 then 0 else 21)) else (if i < 168 then 104
    else (if i < 169 then 71 else 70))) else (if i < 173 then (if i < 171 then 84 else (if i < 172 then 0 else
    83)) else (if i < 174 then 82 else 0))) else (if i < 182 then (if i < 179 then (if i < 177 then 117 else
    (if i < 178 then 101 else 100)) else (if i < 181 then 0 else 105)) else (if i < 185 then (if i < 183 then
    86 else (if i < 184 then 90 else 80)) else (if i < 186 then 79 else (if i < 187 then 98 else 97)))))))
  }

  /** yypact */
  function Pact(i: nat): int
    requires i < 188
  {
    if i < 94 then (if i < 50 then (if i < 25 then (if i < 12 then (if i < 6 then (if i < 3 then (if i < 1 then
    -92 else (if i < 2 then 19 else -92)) else (if i < 4 then 208 else -92)) else (if i < 7 then 39 else -92))
    else (if i < 15 then (if i < 13 then -27 else (if i < 14 then -92 else 23)) else (if i < 24 then -92 else
    -22))) else (if i < 38 then (if i < 31 then (if i < 27 then (if i < 26 then -92 else 9) else (if i < 30
    then -92 else -6)) else (if i < 33 then (if i < 32 then 16 else 25) else -92)) else (if i < 40 then (if i <
    39 then 31 else 473) else -92))) else (if i < 72 then (if i < 61 then (if i < 55 then (if i < 52 then (if i
    < 51 then 49 else 37) else (if i < 54 then -92 else 51)) else (if i < 58 then (if i < 56 then 108 else (if
    i < 57 then -92 else 473)) else (if i < 59 then 51 else (if i < 60 then -92 else 473)))) else (if i < 66
    then (if i < 62 then 59 else (if i < 65 then -92 else 12)) else (if i < 69 then (if i < 67 then -3 else (if
    i < 68 then 60 else 57)) else (if i < 70 then -92 else (if i < 71 then 31 else -7))))) else (if i < 83 then
    (if i < 77 then (if i < 73 then 24 else (if i < 75 then -92 else (if i < 76 then 55 else 42))) else (if i <
    80 then (if i < 78 then -92 else (if i < 79 then 473 else -92)) else (if i < 81 then 46 else (if i < 82
    then -21 else 61)))) else (if i < 88 then (if i < 84 then 158 else (if i < 86 then -92 else (if i < 87 then
    31 else -92))) else (if i < 91 then (if i < 89 then 389 else (if i < 90 then 71 else 82)) else (if i < 92
    then 88 else (if i < 93 then 89 else -92))))))) else (if i < 141 then (if i < 117 then (if i < 105 then (if
    i < 98 then (if i < 95 then -3 else (if i < 97 then -92 else 31)) else (if i < 103 then -92 else (if i <
    104 then 254 else 73))) else (if i < 111 then (if i < 107 then (if i < 106 then -92 else -24) else (if i <
    110 then -92 else 90)) else (if i < 114 then (if i < 112 then -92 else (if i < 113 then 17 else 75)) else
    (if i < 115 then 45 else (if i < 116 then -92 else 32))))) else (if i < 129 then (if i < 123 then (if i <
    119 then (if i < 118 then 96 else 95) else (if i < 122 then -92 else 99)) else (if i < 125 then (if i < 124
    then -92 else 115) else (if i < 127 then -92 else (if i < 128 then 3 else 48)))) else (if i < 133 then (if
    i < 131 then (if i < 130 then -92 else 34) else (if i < 132 then -92 else 102)) else (if i < 137 then -92
    else (if i < 139 then (if i < 138 then -11 else 100) else (if i < 140 then 103 else 111)))))) else (if i <
    163 then (if i < 152 then (if i < 147 then (if i < 142 then 104 else -92) else (if i < 149 then (if i < 148
    then 106 else -92) else (if i < 150 then 113 else -92))) else (if i < 157 then (if i < 154 then (if i < 153
    then 126 else -92) else (if i < 155 then 299 else (if i < 156 then -92 else -21))) else (if i < 160 then
    (if i < 158 then 121 else (if i < 159 then -92 else 132)) else (if i < 162 then -92 else 344)))) else (if i
    < 175 then (if i < 171 then (if i < 166 then (if i < 165 then -92 else 125) else -92) else (if i < 172 then
    435 else (if i < 174 then -92 else 138))) else (if i < 181 then (if i < 179 then (if i < 176 then 139 else
    -92) else (if i < 180 then 142 else 143)) else -92))))
  }

  /** yypgoto */
  function Pgoto(i: nat): int
    requires i < 49
  {
    if i < 24 then (if i < 12 then (if i < 7 then (if i < 3 then (if i < 2 then -92 else 192) else -92) else
    (if i < 8 then -47 else (if i < 10 then -92 else (if i < 11 then 97 else 0)))) else (if i < 18 then (if i <
    14 then (if i < 13 then -60 else -32) else (if i < 17 then -92 else -79)) else (if i < 21 then (if i < 20
    then -92 else -58) else (if i < 22 then -26 else (if i < 23 then -92 else -38))))) else (if i < 35 then (if
    i < 29 then (if i < 26 then (if i < 25 then -92 else -91) else (if i < 28 then -92 else -59)) else (if i <
    30 then -28 else (if i < 34 then -92 else -20))) else (if i < 42 then (if i < 38 then (if i < 37 then -92
    else 112) else (if i < 40 then -92 else (if i < 41 then 41 else 91))) else (if i < 45 then (if i < 43 then
    83 else (if i < 44 then 149 else -92)) else (if i < 46 then 101 else -92))))
  }

  /** yydefgoto */
  function Defgoto(i: nat): int
    requires i < 49
  {
    if i < 24 then (if i < 12 then (if i < 6 then (if i < 3 then (if i < 1 then -1 else (if i < 2 then 1 else
    2)) else (if i < 4 then 3 else (if i < 5 then 36 else 78))) else (if i < 9 then (if i < 7 then 57 else (if
    i < 8 then 37 else 67)) else (if i < 10 then 68 else (if i < 11 then 69 else 81)))) else (if i < 18 then
    (if i < 15 then (if i < 13 then 39 else (if i < 14 then 40 else 41)) else (if i < 16 then 42 else (if i <
    17 then 43 else 70))) else (if i < 21 then (if i < 19 then 93 else (if i < 20 then 94 else 44)) else (if i
    < 22 then 124 else (if i < 23 then 72 else 115))))) else (if i < 36 then (if i < 30 then (if i < 27 then
    (if i < 25 then 116 else (if i < 26 then 139 else 140)) else (if i < 28 then 141 else (if i < 29 then 142
    else 129))) else (if i < 33 then (if i < 31 then 130 else (if i < 32 then 45 else 166)) else (if i < 34
    then 167 else (if i < 35 then 56 else 82)))) else (if i < 42 then (if i < 39 then (if i < 37 then 83 else
    (if i < 38 then 84 else 117)) else (if i < 40 then 118 else (if i < 41 then 119 else 120))) else (if i < 45
    then (if i < 43 then 137 else (if i < 44 then 52 else 76)) else (if i < 47 then (if i < 46 then 77 else 46)
    else (if i < 48 then 101 else 47)))))
  }

  /** yytable */
  function Table(i: nat): int
    requires i < 516
  {
    if i < 258 then (if i < 129 then (if i < 64 then (if i < 32 then (if i < 16 then (if i < 8 then (if i < 4
    then (if i < 2 then (if i < 1 then 88 else 89) else (if i < 3 then 114 else 38)) else (if i < 6 then (if i
    < 5 then 157 else 10) else (if i < 7 then 59 else 73))) else (if i < 12 then (if i < 10 then (if i < 9 then
    95 else 128) else (if i < 11 then 85 else 50)) else (if i < 14 then (if i < 13 then 71 else 91) else (if i
    < 15 then 75 else 20)))) else (if i < 24 then (if i < 20 then (if i < 18 then (if i < 17 then 54 else 110)
    else (if i < 19 then 147 else 4)) else (if i < 22 then (if i < 21 then 164 else 111) else (if i < 23 then
    144 else 99))) else (if i < 28 then (if i < 26 then (if i < 25 then 29 else 51) else (if i < 27 then 100
    else 112)) else (if i < 30 then (if i < 29 then 33 else 66) else (if i < 31 then 55 else 107))))) else (if
    i < 48 then (if i < 40 then (if i < 36 then (if i < 34 then (if i < 33 then 113 else 114) else (if i < 35
    then 79 else 114)) else (if i < 38 then (if i < 37 then 135 else -94) else (if i < 39 then 87 else 92)))
    else (if i < 44 then (if i < 42 then (if i < 41 then 165 else 125) else (if i < 43 then 60 else 88)) else
    (if i < 46 then (if i < 45 then 98 else 158) else (if i < 47 then 53 else 58)))) else (if i < 56 then (if i
    < 52 then (if i < 50 then 128 else (if i < 51 then 63 else 127)) else (if i < 54 then (if i < 53 then -94
    else 66) else (if i < 55 then 64 else 148))) else (if i < 60 then (if i < 58 then (if i < 57 then 73 else
    86) else (if i < 59 then 102 else 111)) else (if i < 62 then (if i < 61 then 65 else 55) else (if i < 63
    then 66 else 175)))))) else (if i < 96 then (if i < 80 then (if i < 72 then (if i < 68 then (if i < 66 then
    (if i < 65 then 61 else 112) else (if i < 67 then 153 else 66)) else (if i < 70 then (if i < 69 then 161
    else 63) else (if i < 71 then 62 else 180))) else (if i < 76 then (if i < 74 then (if i < 73 then 103 else
    64) else (if i < 75 then 149 else 75)) else (if i < 78 then (if i < 77 then 151 else 114) else (if i < 79
    then 86 else 65)))) else (if i < 88 then (if i < 84 then (if i < 82 then (if i < 81 then 154 else 66) else
    (if i < 83 then 162 else 148)) else (if i < 86 then (if i < 85 then 48 else 49) else (if i < 87 then 125
    else 111))) else (if i < 92 then (if i < 90 then (if i < 89 then 105 else 106) else (if i < 91 then 158
    else 108)) else (if i < 94 then (if i < 93 then 109 else 112) else (if i < 95 then 88 else 66))))) else (if
    i < 112 then (if i < 104 then (if i < 100 then (if i < 98 then (if i < 97 then 127 else 90) else (if i < 99
    then 66 else 159)) else (if i < 102 then (if i < 101 then 160 else 51) else (if i < 103 then 88 else 55)))
    else (if i < 108 then (if i < 106 then (if i < 105 then 97 else 96) else (if i < 107 then 104 else 121))
    else (if i < 110 then (if i < 109 then 143 else 80) else (if i < 111 then 150 else 88)))) else (if i < 120
    then (if i < 116 then (if i < 114 then (if i < 113 then 183 else 7) else (if i < 115 then 8 else 9)) else
    (if i < 118 then (if i < 117 then 10 else 11) else (if i < 119 then 12 else 13))) else (if i < 124 then (if
    i < 122 then (if i < 121 then 131 else 15) else (if i < 123 then 16 else 17)) else (if i < 126 then (if i <
    125 then 18 else 19) else (if i < 127 then 20 else (if i < 128 then 21 else 22)))))))) else (if i < 193
    then (if i < 161 then (if i < 145 then (if i < 137 then (if i < 133 then (if i < 131 then (if i < 130 then
    23 else 24) else (if i < 132 then 132 else 26)) else (if i < 135 then (if i < 134 then 27 else 28) else (if
    i < 136 then 29 else 30))) else (if i < 141 then (if i < 139 then (if i < 138 then 133 else 134) else (if i
    < 140 then 33 else 34)) else (if i < 143 then (if i < 142 then 155 else 156) else (if i < 144 then 113 else
    108)))) else (if i < 153 then (if i < 149 then (if i < 147 then (if i < 146 then 99 else -22) else (if i <
    148 then 163 else 170)) else (if i < 151 then (if i < 150 then 168 else 35) else (if i < 152 then 171 else
    169))) else (if i < 157 then (if i < 155 then (if i < 154 then -22 else -108) else (if i < 156 then 172
    else -22)) else (if i < 159 then (if i < 158 then 164 else -22) else (if i < 160 then 122 else 181)))))
    else (if i < 177 then (if i < 169 then (if i < 165 then (if i < 163 then (if i < 162 then -22 else 173)
    else (if i < 164 then 7 else 8)) else (if i < 167 then (if i < 166 then 9 else 10) else (if i < 168 then 11
    else 12))) else (if i < 173 then (if i < 171 then (if i < 170 then 13 else 177) else (if i < 172 then 15
    else 16)) else (if i < 175 then (if i < 174 then 17 else 18) else (if i < 176 then 19 else 20)))) else (if
    i < 185 then (if i < 181 then (if i < 179 then (if i < 178 then 21 else 22) else (if i < 180 then 23 else
    24)) else (if i < 183 then (if i < 182 then 178 else 26) else (if i < 184 then 27 else 28))) else (if i <
    189 then (if i < 187 then (if i < 186 then 29 else 30) else (if i < 188 then 184 else 185)) else (if i <
    191 then (if i < 190 then 33 else 34) else (if i < 192 then 186 else 187)))))) else (if i < 225 then (if i
    < 209 then (if i < 201 then (if i < 197 then (if i < 195 then (if i < 194 then 5 else 136) else (if i < 196
    then 123 else -22)) else (if i < 199 then (if i < 198 then 176 else 152) else (if i < 200 then 74 else
    35))) else (if i < 205 then (if i < 203 then (if i < 202 then 146 else 0) else (if i < 204 then -22 else
    -109)) else (if i < 207 then (if i < 206 then 0 else -22) else (if i < 208 then 145 else -22)))) else (if i
    < 217 then (if i < 213 then (if i < 211 then (if i < 210 then 6 else 0) else (if i < 212 then -22 else 0))
    else (if i < 215 then (if i < 214 then 7 else 8) else (if i < 216 then 9 else 10))) else (if i < 221 then
    (if i < 219 then (if i < 218 then 11 else 12) else (if i < 220 then 13 else 14)) else (if i < 223 then (if
    i < 222 then 15 else 16) else (if i < 224 then 17 else 18))))) else (if i < 241 then (if i < 233 then (if i
    < 229 then (if i < 227 then (if i < 226 then 19 else 20) else (if i < 228 then 21 else 22)) else (if i <
    231 then (if i < 230 then 23 else 24) else (if i < 232 then 25 else 26))) else (if i < 237 then (if i < 235
    then (if i < 234 then 27 else 28) else (if i < 236 then 29 else 30)) else (if i < 239 then (if i < 238 then
    31 else 32) else (if i < 240 then 33 else 34)))) else (if i < 250 then (if i < 246 then 0 else (if i < 247
    then -22 else 0)) else (if i < 254 then (if i < 251 then 35 else (if i < 253 then 0 else -22)) else (if i <
    256 then (if i < 255 then 0 else 138) else (if i < 257 then -22 else 0)))))))) else (if i < 387 then (if i
    < 322 then (if i < 291 then (if i < 274 then (if i < 266 then (if i < 262 then (if i < 260 then (if i < 259
    then -22 else 7) else (if i < 261 then 8 else 9)) else (if i < 264 then (if i < 263 then 10 else 11) else
    (if i < 265 then 12 else 13))) else (if i < 270 then (if i < 268 then (if i < 267 then 0 else 15) else (if
    i < 269 then 16 else 17)) else (if i < 272 then (if i < 271 then 18 else 19) else (if i < 273 then 20 else
    21)))) else (if i < 282 then (if i < 278 then (if i < 276 then (if i < 275 then 22 else 23) else (if i <
    277 then 24 else 0)) else (if i < 280 then (if i < 279 then 26 else 27) else (if i < 281 then 28 else 29)))
    else (if i < 286 then (if i < 283 then 30 else (if i < 285 then 0 else 33)) else (if i < 287 then 34 else
    0)))) else (if i < 306 then (if i < 297 then (if i < 292 then -87 else (if i < 296 then 0 else 35)) else
    (if i < 301 then (if i < 300 then 0 else 174) else (if i < 303 then 0 else (if i < 304 then -87 else (if i
    < 305 then 7 else 8))))) else (if i < 314 then (if i < 310 then (if i < 308 then (if i < 307 then 9 else
    10) else (if i < 309 then 11 else 12)) else (if i < 312 then (if i < 311 then 13 else 0) else (if i < 313
    then 15 else 16))) else (if i < 318 then (if i < 316 then (if i < 315 then 17 else 18) else (if i < 317
    then 19 else 20)) else (if i < 320 then (if i < 319 then 21 else 22) else (if i < 321 then 23 else 24))))))
    else (if i < 354 then (if i < 337 then (if i < 328 then (if i < 325 then (if i < 323 then 0 else (if i <
    324 then 26 else 27)) else (if i < 326 then 28 else (if i < 327 then 29 else 30))) else (if i < 332 then
    (if i < 330 then 0 else (if i < 331 then 33 else 34)) else (if i < 336 then 0 else -87))) else (if i < 345
    then (if i < 341 then 0 else (if i < 342 then 35 else 0)) else (if i < 349 then (if i < 346 then 179 else
    (if i < 348 then 0 else -87)) else (if i < 351 then (if i < 350 then 7 else 8) else (if i < 352 then 9 else
    (if i < 353 then 10 else 11)))))) else (if i < 370 then (if i < 362 then (if i < 358 then (if i < 356 then
    (if i < 355 then 12 else 13) else (if i < 357 then 0 else 15)) else (if i < 360 then (if i < 359 then 16
    else 17) else (if i < 361 then 18 else 19))) else (if i < 366 then (if i < 364 then (if i < 363 then 20
    else 21) else (if i < 365 then 22 else 23)) else (if i < 368 then (if i < 367 then 24 else 0) else (if i <
    369 then 26 else 27)))) else (if i < 377 then (if i < 373 then (if i < 371 then 28 else (if i < 372 then 29
    else 30)) else (if i < 375 then 0 else (if i < 376 then 33 else 34))) else (if i < 382 then (if i < 381
    then 0 else -87) else (if i < 386 then 0 else 35)))))) else (if i < 451 then (if i < 418 then (if i < 402
    then (if i < 394 then (if i < 393 then 0 else -87) else (if i < 398 then (if i < 396 then (if i < 395 then
    7 else 8) else (if i < 397 then 9 else 10)) else (if i < 400 then (if i < 399 then 11 else 12) else (if i <
    401 then 13 else 0)))) else (if i < 410 then (if i < 406 then (if i < 404 then (if i < 403 then 15 else 16)
    else (if i < 405 then 17 else 18)) else (if i < 408 then (if i < 407 then 19 else 20) else (if i < 409 then
    21 else 22))) else (if i < 414 then (if i < 412 then (if i < 411 then 23 else 24) else (if i < 413 then 0
    else 26)) else (if i < 416 then (if i < 415 then 27 else 28) else (if i < 417 then 29 else 30))))) else (if
    i < 432 then (if i < 427 then (if i < 422 then (if i < 420 then 0 else (if i < 421 then 33 else 34)) else
    0) else (if i < 428 then 125 else (if i < 431 then 0 else 126))) else (if i < 441 then (if i < 437 then 0
    else (if i < 439 then (if i < 438 then 127 else 0) else (if i < 440 then 66 else 7))) else (if i < 446 then
    (if i < 443 then (if i < 442 then 8 else 9) else (if i < 444 then 10 else (if i < 445 then 11 else 12)))
    else (if i < 448 then (if i < 447 then 13 else 0) else (if i < 449 then 15 else (if i < 450 then 16 else
    17))))))) else (if i < 483 then (if i < 467 then (if i < 459 then (if i < 455 then (if i < 453 then (if i <
    452 then 18 else 19) else (if i < 454 then 20 else 21)) else (if i < 457 then (if i < 456 then 22 else 23)
    else (if i < 458 then 24 else 0))) else (if i < 463 then (if i < 461 then (if i < 460 then 26 else 27) else
    (if i < 462 then 28 else 29)) else (if i < 464 then 30 else (if i < 466 then 0 else 33)))) else (if i < 473
    then (if i < 468 then 34 else (if i < 472 then 0 else 182)) else (if i < 478 then (if i < 477 then 0 else
    35) else (if i < 480 then (if i < 479 then 7 else 8) else (if i < 481 then 9 else (if i < 482 then 10 else
    11)))))) else (if i < 499 then (if i < 491 then (if i < 487 then (if i < 485 then (if i < 484 then 12 else
    13) else (if i < 486 then 0 else 15)) else (if i < 489 then (if i < 488 then 16 else 17) else (if i < 490
    then 18 else 19))) else (if i < 495 then (if i < 493 then (if i < 492 then 20 else 21) else (if i < 494
    then 22 else 23)) else (if i < 497 then (if i < 496 then 24 else 0) else (if i < 498 then 26 else 27))))
    else (if i < 506 then (if i < 502 then (if i < 500 then 28 else (if i < 501 then 29 else 30)) else (if i <
    504 then 0 else (if i < 505 then 33 else 34))) else (if i < 515 then 0 else 35))))))
  }

  /** yycheck */
  function Check(i: nat): int
    requires i < 516
  {
    if i < 258 then (if i < 129 then (if i < 64 then (if i < 32 then (if i < 16 then (if i < 8 then (if i < 4
    then (if i < 2 then 60 else (if i < 3 then 81 else 3)) else (if i < 6 then (if i < 5 then 1 else 8) else
    (if i < 7 then 26 else 39))) else (if i < 11 then (if i < 9 then 66 else (if i < 10 then 88 else 57)) else
    (if i < 13 then 38 else (if i < 14 then 1 else (if i < 15 then 38 else 18))))) else (if i < 24 then (if i <
    20 then (if i < 18 then 38 else (if i < 19 then 1 else 0)) else (if i < 22 then (if i < 21 then 31 else 42)
    else (if i < 23 then 46 else 30))) else (if i < 28 then (if i < 26 then (if i < 25 then 27 else 52) else
    (if i < 27 then 33 else 48)) else (if i < 30 then (if i < 29 then 31 else 50) else (if i < 31 then 52 else
    78))))) else (if i < 48 then (if i < 40 then (if i < 36 then (if i < 34 then (if i < 33 then 53 else 112)
    else (if i < 35 then 54 else 114)) else (if i < 38 then (if i < 37 then 94 else 34) else (if i < 39 then 58
    else 65))) else (if i < 44 then (if i < 42 then (if i < 41 then 51 else 38) else (if i < 43 then 48 else
    103)) else (if i < 46 then (if i < 45 then 70 else 42) else (if i < 47 then 23 else 38)))) else (if i < 56
    then (if i < 52 then (if i < 50 then (if i < 49 then 127 else 128) else (if i < 51 then 38 else 48)) else
    (if i < 54 then (if i < 53 then 49 else 50) else (if i < 55 then 42 else 38))) else (if i < 60 then (if i <
    58 then (if i < 57 then 88 else 57) else (if i < 59 then 34 else 42)) else (if i < 62 then (if i < 61 then
    48 else 52) else (if i < 63 then 50 else 154)))))) else (if i < 96 then (if i < 79 then (if i < 71 then (if
    i < 67 then (if i < 66 then 48 else 34) else (if i < 69 then (if i < 68 then 50 else 34) else (if i < 70
    then 38 else 45))) else (if i < 75 then (if i < 73 then (if i < 72 then 162 else 48) else (if i < 74 then
    42 else 112)) else (if i < 77 then (if i < 76 then 38 else 114) else (if i < 78 then 156 else 78)))) else
    (if i < 87 then (if i < 83 then (if i < 81 then 48 else (if i < 82 then 50 else 48)) else (if i < 85 then
    (if i < 84 then 38 else 45) else (if i < 86 then 46 else 38))) else (if i < 91 then (if i < 89 then (if i <
    88 then 42 else 46) else (if i < 90 then 47 else 42)) else (if i < 93 then (if i < 92 then 45 else 46) else
    (if i < 94 then 48 else (if i < 95 then 154 else 50)))))) else (if i < 111 then (if i < 103 then (if i < 99
    then (if i < 97 then 48 else (if i < 98 then 38 else 50)) else (if i < 101 then (if i < 100 then 127 else
    128) else (if i < 102 then 52 else 162))) else (if i < 107 then (if i < 105 then (if i < 104 then 52 else
    47) else (if i < 106 then 45 else 51)) else (if i < 109 then (if i < 108 then 46 else 35) else (if i < 110
    then 1 else 35)))) else (if i < 120 then (if i < 115 then (if i < 113 then 171 else (if i < 114 then 5 else
    6)) else (if i < 117 then (if i < 116 then 7 else 8) else (if i < 118 then 9 else (if i < 119 then 10 else
    11)))) else (if i < 124 then (if i < 122 then (if i < 121 then 49 else 13) else (if i < 123 then 14 else
    15)) else (if i < 126 then (if i < 125 then 16 else 17) else (if i < 127 then 18 else (if i < 128 then 19
    else 20)))))))) else (if i < 193 then (if i < 161 then (if i < 145 then (if i < 137 then (if i < 133 then
    (if i < 131 then (if i < 130 then 21 else 22) else (if i < 132 then 49 else 24)) else (if i < 135 then (if
    i < 134 then 25 else 26) else (if i < 136 then 27 else 28))) else (if i < 141 then (if i < 139 then 49 else
    (if i < 140 then 31 else 32)) else (if i < 143 then (if i < 142 then 45 else 47) else (if i < 144 then 53
    else 45)))) else (if i < 153 then (if i < 149 then (if i < 147 then (if i < 146 then 30 else 38) else (if i
    < 148 then 45 else 37)) else (if i < 151 then (if i < 150 then 49 else 42) else (if i < 152 then 47 else
    49))) else (if i < 157 then (if i < 155 then (if i < 154 then 45 else 46) else (if i < 156 then 49 else
    48)) else (if i < 159 then (if i < 158 then 31 else 50) else (if i < 160 then 1 else 35))))) else (if i <
    177 then (if i < 169 then (if i < 165 then (if i < 163 then (if i < 162 then 53 else 49) else (if i < 164
    then 5 else 6)) else (if i < 167 then (if i < 166 then 7 else 8) else (if i < 168 then 9 else 10))) else
    (if i < 173 then (if i < 171 then (if i < 170 then 11 else 49) else (if i < 172 then 13 else 14)) else (if
    i < 175 then (if i < 174 then 15 else 16) else (if i < 176 then 17 else 18)))) else (if i < 185 then (if i
    < 181 then (if i < 179 then (if i < 178 then 19 else 20) else (if i < 180 then 21 else 22)) else (if i <
    183 then (if i < 182 then 49 else 24) else (if i < 184 then 25 else 26))) else (if i < 189 then (if i < 187
    then (if i < 186 then 27 else 28) else 49) else (if i < 191 then (if i < 190 then 31 else 32) else 49)))))
    else (if i < 225 then (if i < 209 then (if i < 201 then (if i < 197 then (if i < 195 then (if i < 194 then
    1 else 97) else (if i < 196 then 83 else 38)) else (if i < 199 then (if i < 198 then 156 else 115) else (if
    i < 200 then 50 else 42))) else (if i < 205 then (if i < 203 then (if i < 202 then 110 else -1) else (if i
    < 204 then 45 else 46)) else (if i < 207 then (if i < 206 then -1 else 48) else (if i < 208 then 106 else
    50)))) else (if i < 217 then (if i < 213 then (if i < 211 then (if i < 210 then 1 else -1) else (if i < 212
    then 53 else -1)) else (if i < 215 then (if i < 214 then 5 else 6) else (if i < 216 then 7 else 8))) else
    (if i < 221 then (if i < 219 then (if i < 218 then 9 else 10) else (if i < 220 then 11 else 12)) else (if i
    < 223 then (if i < 222 then 13 else 14) else (if i < 224 then 15 else 16))))) else (if i < 241 then (if i <
    233 then (if i < 229 then (if i < 227 then (if i < 226 then 17 else 18) else (if i < 228 then 19 else 20))
    else (if i < 231 then (if i < 230 then 21 else 22) else (if i < 232 then 23 else 24))) else (if i < 237
    then (if i < 235 then (if i < 234 then 25 else 26) else (if i < 236 then 27 else 28)) else (if i < 239 then
    (if i < 238 then 29 else 30) else (if i < 240 then 31 else 32)))) else (if i < 250 then (if i < 246 then -1
    else (if i < 247 then 38 else -1)) else (if i < 254 then (if i < 251 then 42 else (if i < 253 then -1 else
    45)) else (if i < 256 then (if i < 255 then -1 else 1) else (if i < 257 then 48 else -1)))))))) else (if i
    < 387 then (if i < 322 then (if i < 291 then (if i < 274 then (if i < 266 then (if i < 262 then (if i < 260
    then (if i < 259 then 50 else 5) else (if i < 261 then 6 else 7)) else (if i < 264 then (if i < 263 then 8
    else 9) else (if i < 265 then 10 else 11))) else (if i < 270 then (if i < 268 then (if i < 267 then -1 else
    13) else (if i < 269 then 14 else 15)) else (if i < 272 then (if i < 271 then 16 else 17) else (if i < 273
    then 18 else 19)))) else (if i < 282 then (if i < 278 then (if i < 276 then (if i < 275 then 20 else 21)
    else (if i < 277 then 22 else -1)) else (if i < 280 then (if i < 279 then 24 else 25) else (if i < 281 then
    26 else 27))) else (if i < 286 then (if i < 283 then 28 else (if i < 285 then -1 else 31)) else (if i < 287
    then 32 else -1)))) else (if i < 306 then (if i < 297 then (if i < 292 then 37 else (if i < 296 then -1
    else 42)) else (if i < 301 then (if i < 300 then -1 else 1) else (if i < 303 then -1 else (if i < 304 then
    49 else (if i < 305 then 5 else 6))))) else (if i < 314 then (if i < 310 then (if i < 308 then (if i < 307
    then 7 else 8) else (if i < 309 then 9 else 10)) else (if i < 312 then (if i < 311 then 11 else -1) else
    (if i < 313 then 13 else 14))) else (if i < 318 then (if i < 316 then (if i < 315 then 15 else 16) else (if
    i < 317 then 17 else 18)) else (if i < 320 then (if i < 319 then 19 else 20) else (if i < 321 then 21 else
    22)))))) else (if i < 354 then (if i < 337 then (if i < 328 then (if i < 325 then (if i < 323 then -1 else
    (if i < 324 then 24 else 25)) else (if i < 326 then 26 else (if i < 327 then 27 else 28))) else (if i < 332
    then (if i < 330 then -1 else (if i < 331 then 31 else 32)) else (if i < 336 then -1 else 37))) else (if i
    < 345 then (if i < 341 then -1 else (if i < 342 then 42 else -1)) else (if i < 349 then (if i < 346 then 1
    else (if i < 348 then -1 else 49)) else (if i < 351 then (if i < 350 then 5 else 6) else (if i < 352 then 7
    else (if i < 353 then 8 else 9)))))) else (if i < 370 then (if i < 362 then (if i < 358 then (if i < 356
    then (if i < 355 then 10 else 11) else (if i < 357 then -1 else 13)) else (if i < 360 then (if i < 359 then
    14 else 15) else (if i < 361 then 16 else 17))) else (if i < 366 then (if i < 364 then (if i < 363 then 18
    else 19) else (if i < 365 then 20 else 21)) else (if i < 368 then (if i < 367 then 22 else -1) else (if i <
    369 then 24 else 25)))) else (if i < 377 then (if i < 373 then (if i < 371 then 26 else (if i < 372 then 27
    else 28)) else (if i < 375 then -1 else (if i < 376 then 31 else 32))) else (if i < 382 then (if i < 381
    then -1 else 37) else (if i < 386 then -1 else 42)))))) else (if i < 451 then (if i < 418 then (if i < 402
    then (if i < 394 then (if i < 393 then -1 else 49) else (if i < 398 then (if i < 396 then (if i < 395 then
    5 else 6) else (if i < 397 then 7 else 8)) else (if i < 400 then (if i < 399 then 9 else 10) else (if i <
    401 then 11 else -1)))) else (if i < 410 then (if i < 406 then (if i < 404 then (if i < 403 then 13 else
    14) else (if i < 405 then 15 else 16)) else (if i < 408 then (if i < 407 then 17 else 18) else (if i < 409
    then 19 else 20))) else (if i < 414 then (if i < 412 then (if i < 411 then 21 else 22) else (if i < 413
    then -1 else 24)) else (if i < 416 then (if i < 415 then 25 else 26) else (if i < 417 then 27 else 28)))))
    else (if i < 432 then (if i < 427 then (if i < 422 then (if i < 420 then -1 else (if i < 421 then 31 else
    32)) else -1) else (if i < 428 then 38 else (if i < 431 then -1 else 42))) else (if i < 441 then (if i <
    437 then -1 else (if i < 439 then (if i < 438 then 48 else -1) else (if i < 440 then 50 else 5))) else (if
    i < 446 then (if i < 443 then (if i < 442 then 6 else 7) else (if i < 444 then 8 else (if i < 445 then 9
    else 10))) else (if i < 448 then (if i < 447 then 11 else -1) else (if i < 449 then 13 else (if i < 450
    then 14 else 15))))))) else (if i < 483 then (if i < 467 then (if i < 459 then (if i < 455 then (if i < 453
    then (if i < 452 then 16 else 17) else (if i < 454 then 18 else 19)) else (if i < 457 then (if i < 456 then
    20 else 21) else (if i < 458 then 22 else -1))) else (if i < 463 then (if i < 461 then (if i < 460 then 24
    else 25) else (if i < 462 then 26 else 27)) else (if i < 464 then 28 else (if i < 466 then -1 else 31))))
    else (if i < 473 then (if i < 468 then 32 else (if i < 472 then -1 else 37)) else (if i < 478 then (if i <
    477 then -1 else 42) else (if i < 480 then (if i < 479 then 5 else 6) else (if i < 481 then 7 else (if i <
    482 then 8 else 9)))))) else (if i < 499 then (if i < 491 then (if i < 487 then (if i < 485 then (if i <
    484 then 10 else 11) else (if i < 486 then -1 else 13)) else (if i < 489 then (if i < 488 then 14 else 15)
    else (if i < 490 then 16 else 17))) else (if i < 495 then (if i < 493 then (if i < 492 then 18 else 19)
    else (if i < 494 then 20 else 21)) else (if i < 497 then (if i < 496 then 22 else -1) else (if i < 498 then
    24 else 25)))) else (if i < 506 then (if i < 502 then (if i < 500 then 26 else (if i < 501 then 27 else
    28)) else (if i < 504 then -1 else (if i < 505 then 31 else 32))) else (if i < 515 then -1 else 42))))))
  }

  /** The rules for symbol x may start in state s. */
  predicate Starts(s: nat, x: nat)
    requires s < 188
  {
    if s < 94 then (if s < 50 then (if s < 25 then (if s < 12 then (if s < 4 then (if s < 2 then (if s < 1 then
    (54 <= x <= 57) else (56 <= x <= 57)) else (if s < 3 then false else (x == 58 || x == 61 || 65 <= x <= 70
    || x == 74 || x == 85 || x == 100 || x == 102))) else false) else (if s < 13 then (x == 97) else (if s < 24
    then false else (x == 88)))) else (if s < 38 then (if s < 27 then (if s < 26 then (x == 60) else (x == 88))
    else false) else (if s < 40 then (if s < 39 then (62 <= x <= 64 || x == 71 || 75 <= x <= 76) else (67 <= x
    <= 70 || x == 74)) else false))) else (if s < 72 then (if s < 61 then (if s < 55 then (if s < 52 then (if s
    < 51 then (x == 97) else (98 <= x <= 99)) else (if s < 53 then false else (if s < 54 then (x == 59) else (x
    == 88)))) else (if s < 58 then (if s < 56 then (65 <= x <= 70 || x == 74 || 89 <= x <= 91) else (if s < 57
    then false else (x == 61 || 65 <= x <= 70 || x == 74))) else (if s < 59 then (x == 88) else (if s < 60 then
    false else (66 <= x <= 70 || x == 74 || x == 82))))) else (if s < 66 then (if s < 65 then false else (x ==
    71 || 75 <= x <= 76)) else (if s < 70 then (if s < 67 then (72 <= x <= 74) else false) else (if s < 71 then
    (x == 71 || 75 <= x <= 76) else (x == 101))))) else (if s < 83 then (if s < 78 then false else (if s < 79
    then (x == 61 || 65 <= x <= 70 || x == 74) else (if s < 81 then false else (if s < 82 then (x == 71 || 77
    <= x <= 78 || 92 <= x <= 95) else false)))) else (if s < 88 then (if s < 84 then (65 <= x <= 70 || x == 74
    || x == 91) else (if s < 86 then false else (if s < 87 then (62 <= x <= 64 || x == 71 || 75 <= x <= 76)
    else false))) else (if s < 89 then (67 <= x <= 71 || x == 74 || 83 <= x <= 84) else false))))) else (if s <
    138 then (if s < 116 then (if s < 104 then (if s < 98 then (if s < 95 then (x == 74) else (if s < 97 then
    false else (x == 64 || x == 71 || 75 <= x <= 76))) else (if s < 101 then false else (if s < 102 then (x ==
    96) else (if s < 103 then false else (66 <= x <= 70 || x == 74 || 79 <= x <= 82))))) else (if s < 110 then
    (if s < 107 then (if s < 106 then false else (x == 99)) else false) else (if s < 113 then (if s < 111 then
    (x == 95) else (if s < 112 then false else (x == 71 || 77 <= x <= 78))) else (if s < 114 then false else
    (if s < 115 then (x == 71 || 77 <= x <= 78) else (x == 96)))))) else (if s < 127 then (if s < 124 then
    false else (if s < 125 then (x == 101) else false)) else (if s < 129 then (x == 71 || 83 <= x <= 84) else
    (if s < 137 then false else (86 <= x <= 87))))) else (if s < 163 then (if s < 154 then false else (if s <
    157 then (if s < 155 then (66 <= x <= 70 || x == 74 || 79 <= x <= 82) else (if s < 156 then false else (x
    == 71 || 77 <= x <= 78 || 94 <= x <= 95))) else (if s < 162 then false else (66 <= x <= 70 || x == 74 || 79
    <= x <= 82)))) else (if s < 172 then (if s < 171 then false else (66 <= x <= 70 || x == 74 || x == 82))
    else false)))
  }

  /** In state s rule n may have been recognised up to position d. */
  predicate Kernel(s: nat, n: nat, d: nat)
    requires s < 188
  {
    if s < 94 then (if s < 47 then (if s < 23 then (if s < 11 then (if s < 5 then (if s < 2 then (if s < 1 then
    false else (d == 1 && (n == 1 || n == 3))) else (if s < 3 then (d == 1 && n == 2) else (if s < 4 then (d ==
    1 && n == 5) else (d == 2 && n == 1)))) else (if s < 8 then (if s < 6 then (d == 2 && n == 3) else (if s <
    7 then (d == 1 && 14 <= n <= 15) else (d == 1 && n == 28))) else (if s < 9 then (d == 1 && n == 55) else
    (if s < 10 then (d == 1 && n == 46) else (d == 1 && n == 62))))) else (if s < 17 then (if s < 14 then (if s
    < 12 then (d == 1 && n == 53) else (if s < 13 then (d == 1 && (n == 39 || 42 <= n <= 43)) else (d == 1 && n
    == 31))) else (if s < 15 then (d == 1 && n == 7) else (if s < 16 then (d == 1 && n == 52) else (d == 1 && n
    == 32)))) else (if s < 20 then (if s < 18 then (d == 1 && n == 48) else (if s < 19 then (d == 1 && n == 49)
    else (d == 1 && n == 29))) else (if s < 21 then (d == 1 && n == 65) else (if s < 22 then (d == 1 && n ==
    47) else (d == 1 && n == 50)))))) else (if s < 35 then (if s < 29 then (if s < 26 then (if s < 24 then (d
    == 1 && n == 30) else (if s < 25 then (d == 1 && (n == 37 || n == 40 || n == 44)) else (d == 1 && n == 9)))
    else (if s < 27 then (d == 1 && (n == 38 || n == 41 || n == 45)) else (if s < 28 then (d == 1 && n == 51)
    else (d == 1 && n == 54)))) else (if s < 32 then (if s < 30 then (d == 1 && n == 63) else (if s < 31 then
    (d == 1 && n == 35) else (d == 1 && n == 133))) else (if s < 33 then (d == 1 && n == 130) else (if s < 34
    then (d == 1 && n == 64) else (d == 1 && n == 36))))) else (if s < 41 then (if s < 38 then (if s < 36 then
    (d == 1 && n == 56) else (if s < 37 then (d == 2 && n == 5) else (d == 1 && n == 10))) else (if s < 39 then
    (d == 1 && (n == 16 || n == 102)) else (if s < 40 then (d == 1 && (n == 23 || n == 25)) else (d == 1 && n
    == 24)))) else (if s < 44 then (if s < 42 then (d == 1 && n == 26) else (if s < 43 then (d == 1 && n == 27)
    else (d == 1 && n == 33))) else (if s < 45 then (d == 1 && n == 34) else (if s < 46 then (d == 1 && n ==
    11) else (d == 1 && n == 12))))))) else (if s < 70 then (if s < 58 then (if s < 52 then (if s < 49 then (if
    s < 48 then (d == 1 && n == 13) else (d == 2 && n == 14)) else (if s < 50 then (d == 2 && n == 15) else (if
    s < 51 then (d == 2 && (n == 39 || n == 42)) else (d == 1 && 124 <= n <= 125)))) else (if s < 55 then (if s
    < 53 then (d == 2 && n == 43) else (if s < 54 then (d == 2 && n == 7) else (d == 2 && (n == 37 || n ==
    40)))) else (if s < 56 then (d == 1 && 106 <= n <= 107) else (if s < 57 then (d == 2 && n == 44) else (d ==
    2 && n == 9))))) else (if s < 64 then (if s < 61 then (if s < 59 then (d == 2 && (n == 38 || n == 41)) else
    (if s < 60 then (d == 2 && n == 45) else (d == 2 && n == 35))) else (if s < 62 then (d == 2 && n == 133)
    else (if s < 63 then (d == 2 && n == 130) else (d == 1 && n == 68)))) else (if s < 67 then (if s < 65 then
    (d == 1 && n == 69) else (if s < 66 then (d == 1 && 73 <= n <= 74) else (d == 1 && n == 57))) else (if s <
    68 then (d == 2 && n == 16) else (if s < 69 then (d == 1 && (n == 18 || n == 20)) else (d == 1 && n ==
    19)))))) else (if s < 82 then (if s < 76 then (if s < 73 then (if s < 71 then (d == 1 && n == 66) else (if
    s < 72 then ((d == 1 && n == 21) || (d == 2 && n == 102)) else (d == 1 && (n == 67 || 70 <= n <= 72))))
    else (if s < 74 then (d == 2 && n == 25) else (if s < 75 then (d == 3 && n == 42) else (d == 1 && 128 <= n
    <= 129)))) else (if s < 79 then (if s < 77 then ((d == 1 && n == 127) || (d == 2 && 124 <= n <= 125)) else
    (if s < 78 then (d == 1 && n == 126) else (d == 3 && n == 7))) else (if s < 80 then (d == 3 && n == 40)
    else (if s < 81 then ((d == 1 && n == 113) || (d == 2 && n == 107)) else (d == 1 && n == 112))))) else (if
    s < 88 then (if s < 85 then (if s < 83 then (d == 2 && n == 106) else (if s < 84 then (d == 1 && (n == 109
    || n == 111)) else (d == 1 && n == 110))) else (if s < 86 then (d == 3 && n == 9) else (if s < 87 then (d
    == 1 && n == 16) else (d == 3 && n == 41)))) else (if s < 91 then (if s < 89 then (d == 1 && (n == 25 || n
    == 91)) else (if s < 90 then (d == 3 && n == 35) else (d == 3 && n == 133))) else (if s < 92 then (d == 2
    && n == 74) else (if s < 93 then (d == 2 && n == 73) else (d == 2 && n == 57)))))))) else (if s < 141 then
    (if s < 117 then (if s < 105 then (if s < 99 then (if s < 96 then (if s < 95 then (d == 1 && (n == 59 || n
    == 61)) else (d == 1 && n == 60)) else (if s < 97 then (d == 3 && n == 16) else (if s < 98 then (d == 2 &&
    n == 20) else (d == 2 && n == 66)))) else (if s < 102 then (if s < 100 then (d == 1 && n == 132) else (if s
    < 101 then (d == 3 && n == 102) else (d == 2 && n == 21))) else (if s < 103 then (d == 2 && n == 72) else
    (if s < 104 then (d == 2 && 70 <= n <= 71) else (d == 2 && n == 129))))) else (if s < 111 then (if s < 108
    then (if s < 106 then (d == 3 && n == 124) else (if s < 107 then ((d == 2 && n == 127) || (d == 3 && n ==
    125)) else (d == 4 && n == 7))) else (if s < 109 then (d == 2 && n == 113) else (if s < 110 then (d == 3 &&
    n == 107) else (d == 1 && (n == 77 || n == 119))))) else (if s < 114 then (if s < 112 then (d == 1 && n ==
    78) else (if s < 113 then (d == 1 && 82 <= n <= 83) else (d == 1 && n == 121))) else (if s < 115 then (d ==
    1 && n == 75) else (if s < 116 then (d == 1 && n == 118) else (d == 1 && (n == 76 || 79 <= n <= 81)))))))
    else (if s < 129 then (if s < 123 then (if s < 120 then (if s < 118 then (d == 2 && n == 112) else (if s <
    119 then (d == 1 && (n == 115 || n == 117)) else (d == 1 && n == 116))) else (if s < 121 then (d == 1 && n
    == 120) else (if s < 122 then (d == 3 && n == 106) else (d == 1 && n == 113)))) else (if s < 126 then (if s
    < 124 then (d == 2 && n == 111) else (if s < 125 then (d == 1 && n == 21) else (d == 1 && n == 95))) else
    (if s < 127 then (d == 1 && (n == 56 || n == 96)) else (if s < 128 then (d == 1 && 100 <= n <= 101) else (d
    == 1 && n == 92))))) else (if s < 135 then (if s < 132 then (if s < 130 then (d == 2 && n == 91) else (if s
    < 131 then (d == 1 && (n == 93 || 97 <= n <= 99)) else (d == 4 && n == 35))) else (if s < 133 then (d == 4
    && n == 133) else (if s < 134 then (d == 3 && n == 74) else (d == 3 && n == 73)))) else (if s < 138 then
    (if s < 136 then (d == 2 && n == 61) else (if s < 137 then (d == 3 && n == 20) else ((d == 1 && n == 123)
    || (d == 3 && n == 21)))) else (if s < 139 then (d == 3 && n == 71) else (if s < 140 then (d == 3 && n ==
    70) else (d == 1 && 84 <= n <= 85))))))) else (if s < 164 then (if s < 152 then (if s < 146 then (if s <
    143 then (if s < 142 then (d == 1 && (n == 86 || n == 88 || n == 90)) else (d == 1 && n == 89)) else (if s
    < 144 then (d == 3 && n == 129) else (if s < 145 then (d == 4 && n == 125) else (d == 3 && n == 127))))
    else (if s < 149 then (if s < 147 then (d == 2 && n == 119) else (if s < 148 then (d == 2 && n == 83) else
    (d == 1 && n == 77))) else (if s < 150 then (d == 2 && n == 82) else (if s < 151 then (d == 2 && n == 121)
    else (d == 2 && n == 75))))) else (if s < 158 then (if s < 155 then (if s < 153 then ((d == 1 && n == 123)
    || (d == 2 && n == 118)) else (if s < 154 then (d == 2 && n == 81) else (d == 2 && 79 <= n <= 80))) else
    (if s < 156 then (d == 3 && n == 112) else (if s < 157 then (d == 2 && n == 117) else (d == 2 && n ==
    101)))) else (if s < 161 then (if s < 159 then (d == 1 && n == 96) else (if s < 160 then (d == 2 && n ==
    100) else (d == 2 && n == 92))) else (if s < 162 then (d == 2 && n == 99) else (if s < 163 then (d == 2 &&
    97 <= n <= 98) else (d == 5 && n == 133)))))) else (if s < 176 then (if s < 170 then (if s < 167 then (if s
    < 165 then (d == 2 && n == 123) else (if s < 166 then (d == 1 && n == 105) else (d == 4 && n == 21))) else
    (if s < 168 then (d == 1 && n == 104) else (if s < 169 then (d == 4 && n == 71) else (d == 4 && n == 70))))
    else (if s < 173 then (if s < 171 then (d == 2 && n == 84) else (if s < 172 then (d == 2 && (n == 86 || n
    == 90)) else (d == 3 && n == 83))) else (if s < 174 then (d == 3 && n == 82) else (if s < 175 then (d == 3
    && n == 80) else (d == 3 && n == 79))))) else (if s < 182 then (if s < 179 then (if s < 177 then (d == 3 &&
    n == 117) else (if s < 178 then (d == 3 && n == 101) else (d == 3 && n == 100))) else (if s < 180 then (d
    == 3 && n == 98) else (if s < 181 then (d == 3 && n == 97) else (d == 2 && n == 105)))) else (if s < 185
    then (if s < 183 then (d == 3 && n == 86) else (if s < 184 then (d == 3 && n == 90) else (d == 4 && n ==
    80))) else (if s < 186 then (d == 4 && n == 79) else (if s < 187 then (d == 4 && n == 98) else (d == 4 && n
    == 97))))))))
  }

  /** State v is entered from state s. */
  predicate From(v: nat, s: nat)
    requires v < 188
  {
    if v < 93 then (if v < 45 then (if v < 21 then (if v < 10 then (if v < 4 then (if v < 1 then false else (if
    v < 3 then (s == 0) else (0 <= s <= 1))) else (if v < 7 then (if v < 6 then (s == 1) else (s == 3)) else (s
    == 3 || s == 39 || s == 55 || s == 57 || s == 60 || s == 78 || s == 83 || s == 88 || s == 103 || s == 154
    || s == 162 || s == 171))) else (if v < 15 then (if v < 11 then (s == 3 || s == 39 || s == 55 || s == 57 ||
    s == 60 || s == 66 || s == 78 || s == 83 || s == 88 || s == 94 || s == 103 || s == 154 || s == 162 || s ==
    171) else (if v < 14 then (s == 3 || s == 39 || s == 55 || s == 57 || s == 60 || s == 78 || s == 83 || s ==
    88 || s == 103 || s == 154 || s == 162 || s == 171) else (s == 3))) else (if v < 20 then (s == 3 || s == 39
    || s == 55 || s == 57 || s == 60 || s == 78 || s == 83 || s == 88 || s == 103 || s == 154 || s == 162 || s
    == 171) else (s == 3 || s == 39 || s == 55 || s == 57 || s == 60 || s == 66 || s == 78 || s == 83 || s ==
    88 || s == 94 || s == 103 || s == 154 || s == 162 || s == 171)))) else (if v < 33 then (if v < 26 then (if
    v < 25 then (s == 3 || s == 39 || s == 55 || s == 57 || s == 60 || s == 78 || s == 83 || s == 88 || s ==
    103 || s == 154 || s == 162 || s == 171) else (s == 3)) else (if v < 29 then (s == 3 || s == 39 || s == 55
    || s == 57 || s == 60 || s == 78 || s == 83 || s == 88 || s == 103 || s == 154 || s == 162 || s == 171)
    else (if v < 31 then (if v < 30 then (s == 3 || s == 39 || s == 55 || s == 57 || s == 60 || s == 66 || s ==
    78 || s == 83 || s == 88 || s == 94 || s == 103 || s == 154 || s == 162 || s == 171) else (s == 3 || s ==
    39 || s == 55 || s == 57 || s == 60 || s == 78 || s == 83 || s == 88 || s == 103 || s == 154 || s == 162 ||
    s == 171)) else (s == 3)))) else (if v < 39 then (if v < 36 then (if v < 34 then (s == 3 || s == 39 || s ==
    55 || s == 57 || s == 60 || s == 66 || s == 78 || s == 83 || s == 88 || s == 94 || s == 103 || s == 154 ||
    s == 162 || s == 171) else (if v < 35 then (s == 3 || s == 39 || s == 55 || s == 57 || s == 60 || s == 78
    || s == 83 || s == 88 || s == 103 || s == 154 || s == 162 || s == 171) else (s == 3 || s == 39 || s == 55
    || s == 57 || s == 60 || s == 78 || s == 83 || s == 103 || s == 154 || s == 162 || s == 171))) else (s ==
    3)) else (if v < 41 then (if v < 40 then (s == 3 || s == 55 || s == 57 || s == 78 || s == 83) else (s == 3
    || s == 55 || s == 57 || s == 60 || s == 78 || s == 83 || s == 103 || s == 154 || s == 162 || s == 171))
    else (s == 3 || s == 39 || s == 55 || s == 57 || s == 60 || s == 78 || s == 83 || s == 88 || s == 103 || s
    == 154 || s == 162 || s == 171))))) else (if v < 70 then (if v < 57 then (if v < 51 then (if v < 48 then (s
    == 3) else (if v < 50 then (s == 6) else (s == 12))) else (if v < 54 then (if v < 52 then (s == 12 || s ==
    50) else (if v < 53 then (s == 12) else (s == 14))) else (if v < 55 then (s == 24) else (if v < 56 then (s
    == 24 || s == 26 || s == 54 || s == 58) else (s == 24))))) else (if v < 63 then (if v < 60 then (if v < 58
    then (s == 25) else (s == 26)) else (if v < 61 then (s == 30) else (if v < 62 then (s == 31) else (s ==
    32)))) else (if v < 66 then (s == 38 || s == 65 || s == 70 || s == 86 || s == 97) else (if v < 67 then (s
    == 38 || s == 65 || s == 70 || s == 81 || s == 86 || s == 88 || s == 97 || s == 112 || s == 114 || 127 <= s
    <= 128 || s == 156) else (s == 38 || s == 86))))) else (if v < 81 then (if v < 75 then (if v < 72 then (if
    v < 71 then (s == 38 || s == 65 || s == 70 || s == 86 || s == 97) else (s == 38)) else (if v < 73 then (s
    == 38 || s == 65 || s == 70 || s == 86 || s == 97) else (if v < 74 then (s == 39 || s == 88) else (s ==
    50)))) else (if v < 78 then (if v < 76 then (s == 51 || s == 106) else (s == 51)) else (if v < 79 then (s
    == 53) else (if v < 80 then (s == 54) else (s == 55))))) else (if v < 87 then (if v < 85 then (if v < 82
    then (s == 55 || s == 83) else (s == 55)) else (if v < 86 then (s == 57) else (s == 57 || s == 78))) else
    (if v < 90 then (if v < 88 then (s == 58) else (if v < 89 then (s == 60 || s == 103 || s == 154 || s == 162
    || s == 171) else (s == 60))) else (if v < 91 then (s == 61) else (s == 65))))))) else (if v < 140 then (if
    v < 116 then (if v < 104 then (if v < 98 then (if v < 96 then (s == 66) else (if v < 97 then (s == 67) else
    (s == 68))) else (if v < 101 then (if v < 99 then (s == 70) else (if v < 100 then (s == 71 || s == 124)
    else (s == 71))) else (if v < 102 then (s == 71 || s == 124) else (s == 72)))) else (if v < 110 then (if v
    < 107 then (if v < 105 then (s == 75) else (s == 76)) else (if v < 108 then (s == 78) else (if v < 109 then
    (s == 80 || s == 122) else (s == 80)))) else (if v < 113 then (if v < 111 then (s == 81 || s == 156) else
    (s == 81 || s == 112 || s == 114 || s == 156)) else (if v < 114 then (s == 81 || s == 110 || s == 156) else
    (if v < 115 then (s == 81 || s == 112 || s == 114 || s == 156) else (s == 81 || s == 156)))))) else (if v <
    127 then (if v < 121 then (if v < 117 then (s == 81 || s == 112 || s == 114 || s == 156) else (if v < 120
    then (s == 81) else (s == 81 || s == 156))) else (if v < 124 then (if v < 122 then (s == 82) else (s ==
    83)) else (if v < 125 then (s == 86 || s == 97) else (if v < 126 then (s == 88 || 127 <= s <= 128) else (s
    == 88))))) else (if v < 133 then (if v < 130 then (if v < 129 then (s == 88 || 127 <= s <= 128) else (s ==
    88)) else (if v < 131 then (s == 88 || 127 <= s <= 128) else (if v < 132 then (s == 89) else (s == 90))))
    else (if v < 136 then (if v < 134 then (s == 91) else (if v < 135 then (s == 92) else (s == 94))) else (if
    v < 138 then (if v < 137 then (s == 97) else (s == 101)) else (s == 103)))))) else (if v < 164 then (if v <
    152 then (if v < 146 then (if v < 143 then (s == 103 || s == 154 || s == 162) else (if v < 144 then (s ==
    104) else (s == 106))) else (if v < 149 then (if v < 147 then (s == 110) else (if v < 148 then (s == 112)
    else (s == 112 || s == 114))) else (if v < 150 then (s == 112) else (if v < 151 then (s == 113) else (s ==
    114))))) else (if v < 158 then (if v < 155 then (if v < 153 then (s == 115) else (s == 116)) else (if v <
    156 then (s == 117) else (if v < 157 then (s == 118) else (s == 127)))) else (if v < 161 then (if v < 159
    then (127 <= s <= 128) else (if v < 160 then (s == 127) else (s == 128))) else (if v < 163 then (s == 130)
    else (s == 132))))) else (if v < 176 then (if v < 170 then (if v < 168 then (if v < 165 then (s == 137 || s
    == 152) else (s == 137)) else (if v < 169 then (s == 138) else (s == 139))) else (if v < 173 then (if v <
    171 then (s == 140) else (if v < 172 then (s == 141) else (s == 147))) else (if v < 174 then (s == 149)
    else (s == 154)))) else (if v < 182 then (if v < 179 then (if v < 177 then (s == 156) else (if v < 178 then
    (s == 157) else (s == 159))) else (if v < 181 then (s == 162) else (s == 165))) else (if v < 185 then (if v
    < 184 then (s == 171) else (s == 174)) else (if v < 186 then (s == 175) else (if v < 187 then (s == 179)
    else (s == 180))))))))
  }

  /** The symbol at position k of the right-hand side of rule n. */
  function RhsAt(n: nat, k: nat): nat
    requires n < 134
  {
    if Prhs(n) + k < 361 && Rhs(Prhs(n) + k) >= 0 then Rhs(Prhs(n) + k) else 0
  }

  predicate Has(s: nat, n: nat, d: nat)
    requires s < 188
  {
    if d == 0 then n < 134 && Starts(s, R1(n)) else Kernel(s, n, d)
  }

  function ItemsAt(s: nat): set<Item>
    requires s < 188
  {
    set n: nat, d: nat | n < 134 && d < 6 && Has(s, n, d) :: Item(n, d)
  }

  function ParserTables(): Tables {
    Tables(
      seq(188, i requires 0 <= i < 188 => Pact(i)),
      seq(188, i requires 0 <= i < 188 => Defact(i)),
      seq(516, i requires 0 <= i < 516 => Check(i)),
      seq(516, i requires 0 <= i < 516 => Table(i)),
      seq(134, i requires 0 <= i < 134 => R1(i)),
      seq(134, i requires 0 <= i < 134 => R2(i)),
      seq(49, i requires 0 <= i < 49 => Pgoto(i)),
      seq(49, i requires 0 <= i < 49 => Defgoto(i)),
      -92, 515, 54, 4)
  }

  function ParserGrammar(): Grammar {
    Grammar(
      seq(134, i requires 0 <= i < 134 => R1(i)),
      seq(134, i requires 0 <= i < 134 => seq(R2(i), k requires 0 <= k < R2(i) => RhsAt(i, k) as nat)))
  }

  function ParserItems(): Items {
    seq(188, i requires 0 <= i < 188 => ItemsAt(i))
  }

  // ----- The rank of the states -----

  /** The weight of a symbol on the stack. */
  function SymbolWeight(i: nat): nat
    requires i < 103
  {
    if i < 54 then 40 else (if i < 78 then (if i < 66 then (if i < 59 then (if i < 56 then (if i < 55 then 0
    else 24) else (if i < 57 then 28 else (if i < 58 then 0 else 32))) else (if i < 62 then (if i < 61 then 0
    else 36) else (if i < 64 then (if i < 63 then 0 else 24) else (if i < 65 then 28 else 0)))) else (if i < 72
    then (if i < 69 then (if i < 67 then 24 else (if i < 68 then 28 else 36)) else (if i < 70 then 32 else 36))
    else (if i < 75 then (if i < 73 then 0 else (if i < 74 then 32 else 36)) else (if i < 76 then 32 else (if i
    < 77 then 36 else 32))))) else (if i < 90 then (if i < 83 then (if i < 79 then 36 else (if i < 81 then 0
    else (if i < 82 then 16 else 20))) else (if i < 86 then (if i < 85 then 0 else 68) else (if i < 87 then 0
    else (if i < 89 then 76 else 0)))) else (if i < 96 then (if i < 93 then (if i < 91 then 32 else (if i < 92
    then 36 else 0)) else (if i < 94 then 24 else (if i < 95 then 28 else 76))) else (if i < 99 then (if i < 97
    then 0 else (if i < 98 then 108 else 32)) else (if i < 101 then (if i < 100 then 36 else 76) else (if i <
    102 then 0 else 196))))))
  }

  /** The height of a state: how many reductions of nothing can follow it. */
  function StateHeight(i: nat): nat
    requires i < 188
  {
    if i < 89 then (if i < 39 then (if i < 25 then (if i < 4 then (if i < 2 then 3 else (if i < 3 then 0 else
    2)) else 0) else (if i < 26 then 3 else (if i < 38 then 0 else 1))) else (if i < 66 then (if i < 53 then 0
    else (if i < 58 then (if i < 55 then (if i < 54 then 3 else 0) else (if i < 56 then 2 else (if i < 57 then
    0 else 2))) else 0)) else (if i < 78 then (if i < 72 then (if i < 67 then 1 else (if i < 71 then 0 else 3))
    else 0) else (if i < 83 then (if i < 79 then 2 else (if i < 81 then 0 else (if i < 82 then 1 else 0))) else
    (if i < 86 then (if i < 84 then 2 else 0) else (if i < 87 then 1 else (if i < 88 then 0 else 2))))))) else
    (if i < 138 then (if i < 115 then (if i < 102 then (if i < 101 then 0 else 2) else (if i < 104 then (if i <
    103 then 0 else 2) else 0)) else (if i < 125 then (if i < 116 then 1 else (if i < 124 then 0 else 3)) else
    (if i < 131 then (if i < 127 then 0 else (if i < 129 then 2 else (if i < 130 then 0 else 1))) else (if i <
    137 then 0 else 1)))) else (if i < 163 then (if i < 154 then (if i < 141 then (if i < 140 then 0 else 1)
    else 0) else (if i < 155 then 2 else (if i < 162 then 0 else 2))) else 0))
  }

  /** The greatest height of a state entered over a symbol. */
  function Cap(i: nat): nat
    requires i < 103
  {
    if i < 51 then (if i < 24 then (if i < 1 then 3 else (if i < 23 then 0 else 3)) else (if i < 48 then 0 else
    (if i < 49 then 2 else (if i < 50 then 0 else 1)))) else (if i < 77 then (if i < 65 then (if i < 58 then
    (if i < 53 then (if i < 52 then 0 else 2) else (if i < 55 then 0 else (if i < 56 then 3 else (if i < 57
    then 0 else 2)))) else (if i < 61 then (if i < 59 then 0 else 2) else 0)) else (if i < 71 then (if i < 67
    then (if i < 66 then 1 else 2) else 0) else (if i < 75 then (if i < 72 then 2 else 0) else (if i < 76 then
    3 else 0)))) else (if i < 90 then (if i < 84 then (if i < 80 then (if i < 78 then 1 else 0) else (if i < 81
    then 1 else 0)) else (if i < 85 then 1 else 0)) else (if i < 96 then (if i < 91 then 2 else 0) else (if i <
    97 then 1 else (if i < 101 then 0 else (if i < 102 then 2 else 0))))))
  }

  /** The weight of all right-hand sides before position i of yyrhs. */
  function WeightBefore(i: nat): nat
    requires i < 362
  {
    if i < 180 then (if i < 90 then (if i < 45 then (if i < 22 then (if i < 11 then (if i < 4 then (if i < 2
    then (if i < 1 then 0 else 24) else 64) else (if i < 7 then (if i < 6 then 92 else 116) else 144)) else (if
    i < 15 then (if i < 14 then 176 else 216) else (if i < 17 then 256 else (if i < 20 then 292 else 332))))
    else (if i < 33 then (if i < 26 then (if i < 24 then 368 else 404) else (if i < 28 then 472 else (if i < 30
    then 548 else (if i < 32 then 744 else 784)))) else (if i < 40 then (if i < 36 then (if i < 35 then 824
    else 864) else 904) else (if i < 43 then 944 else 968)))) else (if i < 66 then (if i < 57 then (if i < 51
    then (if i < 48 then (if i < 47 then 996 else 1020) else (if i < 49 then 1060 else 1088)) else 1120) else
    (if i < 61 then (if i < 59 then 1144 else 1172) else (if i < 62 then 1196 else (if i < 64 then 1224 else
    1260)))) else (if i < 78 then (if i < 72 then (if i < 68 then 1292 else (if i < 70 then 1332 else 1372))
    else (if i < 74 then 1412 else (if i < 76 then 1452 else 1492))) else (if i < 84 then (if i < 80 then 1528
    else (if i < 82 then 1564 else (if i < 83 then 1604 else 1644))) else (if i < 87 then (if i < 85 then 1664
    else 1704) else (if i < 89 then 1744 else 1784)))))) else (if i < 135 then (if i < 111 then (if i < 100
    then (if i < 95 then (if i < 92 then 1824 else (if i < 93 then 1864 else 1904)) else (if i < 96 then 1944
    else (if i < 98 then 1984 else (if i < 99 then 2024 else 2064)))) else (if i < 104 then (if i < 102 then
    2140 else (if i < 103 then 2180 else 2220)) else (if i < 107 then (if i < 106 then 2296 else 2336) else (if
    i < 108 then 2376 else (if i < 110 then 2484 else 2524))))) else (if i < 123 then (if i < 117 then (if i <
    114 then (if i < 113 then 2632 else 2672) else (if i < 116 then 2748 else 2788)) else (if i < 119 then 2864
    else (if i < 121 then 2904 else 2944))) else (if i < 129 then (if i < 125 then 2984 else (if i < 127 then
    3024 else 3064)) else (if i < 131 then 3104 else (if i < 133 then 3144 else 3184))))) else (if i < 156 then
    (if i < 145 then (if i < 139 then (if i < 137 then 3224 else 3264) else (if i < 141 then 3304 else 3344))
    else (if i < 150 then (if i < 147 then 3376 else (if i < 149 then 3412 else 3444)) else (if i < 152 then
    3480 else (if i < 154 then 3520 else 3560)))) else (if i < 167 then (if i < 161 then (if i < 158 then 3600
    else (if i < 160 then 3640 else 3676)) else (if i < 163 then 3708 else (if i < 165 then 3744 else 3784)))
    else (if i < 172 then (if i < 169 then 3824 else (if i < 170 then 3860 else 3900)) else (if i < 176 then
    (if i < 174 then 3940 else (if i < 175 then 3976 else 4016)) else (if i < 177 then 4056 else (if i < 179
    then 4096 else 4132)))))))) else (if i < 270 then (if i < 225 then (if i < 202 then (if i < 191 then (if i
    < 184 then (if i < 182 then 4172 else (if i < 183 then 4212 else 4244)) else (if i < 187 then (if i < 186
    then 4284 else 4324) else (if i < 188 then 4364 else (if i < 190 then 4404 else 4440)))) else (if i < 195
    then (if i < 193 then 4472 else 4508) else (if i < 197 then 4548 else (if i < 199 then 4588 else (if i <
    200 then 4624 else 4664))))) else (if i < 213 then (if i < 207 then (if i < 204 then 4704 else (if i < 205
    then 4740 else (if i < 206 then 4780 else 4820))) else (if i < 210 then (if i < 209 then 4860 else 4896)
    else (if i < 212 then 4936 else 4976))) else (if i < 218 then (if i < 214 then 5008 else (if i < 216 then
    5048 else (if i < 217 then 5088 else 5128))) else (if i < 221 then 5168 else 5208)))) else (if i < 247 then
    (if i < 236 then (if i < 230 then (if i < 227 then (if i < 226 then 5224 else 5264) else 5304) else (if i <
    232 then 5320 else (if i < 234 then 5340 else (if i < 235 then 5356 else 5396)))) else (if i < 241 then (if
    i < 238 then 5416 else 5440) else 5476)) else (if i < 258 then (if i < 252 then (if i < 249 then 5516 else
    5556) else (if i < 254 then 5596 else (if i < 257 then 5636 else 5676))) else (if i < 264 then (if i < 262
    then (if i < 259 then 5716 else 5756) else 5796) else (if i < 266 then 5836 else (if i < 268 then 5876 else
    (if i < 269 then 5916 else 5956))))))) else (if i < 317 then (if i < 293 then (if i < 280 then (if i < 274
    then (if i < 273 then 5996 else 6028) else (if i < 277 then 6068 else (if i < 279 then 6144 else 6184)))
    else (if i < 286 then (if i < 282 then 6224 else (if i < 284 then 6264 else 6304)) else (if i < 288 then
    (if i < 287 then 6344 else 6384) else (if i < 291 then 6424 else 6456)))) else (if i < 306 then (if i < 300
    then (if i < 296 then (if i < 295 then 6492 else 6524) else 6560) else (if i < 303 then (if i < 302 then
    6600 else 6640) else 6680)) else (if i < 311 then (if i < 308 then 6704 else (if i < 310 then 6732 else
    6756)) else (if i < 314 then (if i < 312 then 6796 else 6824) else 6856)))) else (if i < 338 then (if i <
    327 then (if i < 322 then (if i < 318 then 6896 else (if i < 320 then 6972 else 7048)) else (if i < 323
    then 7088 else 7128)) else (if i < 331 then (if i < 329 then 7168 else (if i < 330 then 7208 else 7240))
    else (if i < 334 then (if i < 333 then 7280 else 7320) else (if i < 336 then (if i < 335 then 7352 else
    7392) else 7432)))) else (if i < 350 then (if i < 344 then (if i < 341 then (if i < 340 then 7468 else
    7500) else (if i < 342 then 7540 else 7576)) else (if i < 347 then (if i < 346 then 7616 else 7656) else
    (if i < 348 then 7696 else 7736))) else (if i < 356 then (if i < 354 then (if i < 351 then 7776 else 7816)
    else 7856) else (if i < 359 then (if i < 357 then 7896 else (if i < 358 then 7936 else 7976)) else (if i <
    360 then 8016 else 8056)))))))
  }

  function ParserRank(): Rank {
    Rank(
      seq(103, i requires 0 <= i < 103 => SymbolWeight(i)),
      seq(188, i requires 0 <= i < 188 => StateHeight(i)),
      44)
  }
}
