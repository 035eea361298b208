/** Response flags printed as a comma-separated list, and what the metrics read from it. */
module ResponseFlags {
  /** The code of the flag with bit k. */
  function Code(k: nat): string {
    match k
    case 0 => "LH"
    case 1 => "UH"
    case 2 => "UT"
    case 3 => "LR"
    case 4 => "UR"
    case 5 => "UF"
    case 6 => "UC"
    case 7 => "UO"
    case 8 => "NR"
    case 9 => "DI"
    case 10 => "FI"
    case 11 => "RL"
    case 12 => "UAEX"
    case 13 => "RLSE"
    case 14 => "DC"
    case 15 => "URX"
    case 16 => "SI"
    case 17 => "IH"
    case 18 => "DPE"
    case _ => "-"
  }

  const FLAGS: nat := 19

  function Pow2(k: nat): (n: nat)
    ensures n > 0
  {
    if k == 0 then 1 else 2 * Pow2(k - 1)
  }

  function Shifted(f: nat, k: nat): nat
    decreases k, f
  {
    if k == 0 then f else Shifted(f, k - 1) / 2
  }

  /** response_flag & (1 << k). */
  predicate Bit(f: nat, k: nat) {
    Shifted(f, k) % 2 == 1
  }

  // ----- decimal digits -----

  function Digit(d: nat): char
    requires d < 10
  {
    '0' + d as char
  }

  predicate IsDigit(c: char) {
    '0' <= c <= '9'
  }

  /** std::to_string. */
  function Decimal(n: nat): (s: string)
    ensures s != "" && forall i | 0 <= i < |s| :: IsDigit(s[i])
  {
    if n < 10 then [Digit(n)] else Decimal(n / 10) + [Digit(n % 10)]
  }

  function ParseDecimal(s: string): nat
    requires forall i | 0 <= i < |s| :: IsDigit(s[i])
  {
    if s == "" then 0
    else
      assert IsDigit(s[|s| - 1]);
      ParseDecimal(s[..|s| - 1]) * 10 + (s[|s| - 1] - '0') as nat
  }

  lemma {:induction false} DecimalRoundTrip(n: nat)
    ensures ParseDecimal(Decimal(n)) == n
  {
    var s := Decimal(n);
    if n < 10 {
      assert s[..0] == "";
    } else {
      DecimalRoundTrip(n / 10);
      assert s[..|s| - 1] == Decimal(n / 10);
    }
  }

  // ----- printing -----

  /** appendString: the first piece stands alone, each later one follows a comma. */
  function Appended(result: string, append: string): string {
    if result == "" then append else result + ("," + append)
  }

  /** Read as a list of pieces, the text has one more at its end. */
  method AppendString(result: string, append: string) returns (r: string)
    ensures r == Appended(result, append)
    ensures IsPiece(append) ==>
              Fields(r, |r|) == (if result == "" then [] else Fields(result, |result|)) + [append]
  {
    if IsPiece(append) {
      FieldsOfAppended(result, append);
    }
    if result == "" {
      r := append;
    } else {
      r := result + ("," + append);
    }
  }

  /** The first n flags' codes, those that are set. */
  function Parts(f: nat, n: nat): seq<string>
    requires n <= FLAGS
    decreases n, f
  {
    if n == 0 then []
    else Parts(f, n - 1) + if Bit(f, n - 1) then [Code(n - 1)] else []
  }

  /** All the pieces of a flag word, with the number itself when a bit beyond the last flag is set. */
  function AllParts(f: nat): seq<string> {
    Parts(f, FLAGS) + if f >= Pow2(FLAGS) then [Decimal(f)] else []
  }

  /** Pieces joined by commas. */
  function Joined(ps: seq<string>, n: nat): string
    requires n <= |ps|
    decreases n, ps
  {
    if n == 0 then "" else Appended(Joined(ps, n - 1), ps[n - 1])
  }

  function Printed(f: nat): string {
    if AllParts(f) == [] then "-" else Joined(AllParts(f), |AllParts(f)|)
  }

  lemma {:induction false} JoinedPrefix(ps: seq<string>, p: string, n: nat)
    requires n <= |ps|
    ensures Joined(ps + [p], n) == Joined(ps, n)
    decreases n
  {
    if n > 0 {
      JoinedPrefix(ps, p, n - 1);
    }
  }

  lemma {:induction false} JoinedGrows(ps: seq<string>, p: string)
    ensures Joined(ps + [p], |ps| + 1) == Appended(Joined(ps, |ps|), p)
  {
    JoinedPrefix(ps, p, |ps|);
  }

  function All(ps: seq<string>): string {
    Joined(ps, |ps|)
  }

  lemma {:induction false} Tested(f: nat, k: nat)
    requires k < FLAGS
    ensures All(Parts(f, k + 1)) == if Bit(f, k) then Appended(All(Parts(f, k)), Code(k)) else All(Parts(f, k))
  {
    JoinedGrows(Parts(f, k), Code(k));
    assert Parts(f, k) + [] == Parts(f, k);
  }

  /** Every piece is longer than the empty string and holds no comma. */
  predicate IsPiece(p: string) {
    p != "" && forall i | 0 <= i < |p| :: p[i] != ','
  }

  lemma {:induction false} CodesArePieces(k: nat)
    requires k < FLAGS
    ensures IsPiece(Code(k)) && !IsDigit(Code(k)[0]) && Code(k) != "-"
  {
  }

  lemma {:induction false} PartsArePieces(f: nat, n: nat)
    requires n <= FLAGS
    ensures forall i | 0 <= i < |Parts(f, n)| :: IsPiece(Parts(f, n)[i]) && !IsDigit(Parts(f, n)[i][0])
    decreases n
  {
    if n > 0 {
      PartsArePieces(f, n - 1);
      CodesArePieces(n - 1);
    }
  }

  lemma {:induction false} EmptyOnlyWhenNothing(ps: seq<string>)
    requires forall i | 0 <= i < |ps| :: IsPiece(ps[i])
    ensures All(ps) == "" <==> ps == []
  {
    if ps != [] {
      assert ps == ps[..|ps| - 1] + [ps[|ps| - 1]];
      assert All(ps) == Appended(Joined(ps, |ps| - 1), ps[|ps| - 1]);
    }
  }

  /** One of the tests: if (response_flag & (1 << k)) appendString(result, code). */
  method AppendIf(f: nat, k: nat, code: string, result: string) returns (r: string)
    requires k < FLAGS && code == Code(k) && result == All(Parts(f, k))
    ensures r == All(Parts(f, k + 1))
  {
    Tested(f, k);
    r := result;
    if Bit(f, k) {
      r := AppendString(r, code);
    }
  }

  /** The nineteen tests, in the order of the bits. */
  method AppendFlags(f: nat) returns (result: string)
    ensures result == All(Parts(f, FLAGS))
  {
    result := "";
    result := AppendIf(f, 0, "LH", result);
    result := AppendIf(f, 1, "UH", result);
    result := AppendIf(f, 2, "UT", result);
    result := AppendIf(f, 3, "LR", result);
    result := AppendIf(f, 4, "UR", result);
    result := AppendIf(f, 5, "UF", result);
    result := AppendIf(f, 6, "UC", result);
    result := AppendIf(f, 7, "UO", result);
    result := AppendIf(f, 8, "NR", result);
    result := AppendIf(f, 9, "DI", result);
    result := AppendIf(f, 10, "FI", result);
    result := AppendIf(f, 11, "RL", result);
    result := AppendIf(f, 12, "UAEX", result);
    result := AppendIf(f, 13, "RLSE", result);
    result := AppendIf(f, 14, "DC", result);
    result := AppendIf(f, 15, "URX", result);
    result := AppendIf(f, 16, "SI", result);
    result := AppendIf(f, 17, "IH", result);
    result := AppendIf(f, 18, "DPE", result);
  }

  /** parseResponseFlag: the flags, and the number if it is too large for them. */
  method ParseResponseFlag(f: nat) returns (r: string)
    requires f < 0x1_0000_0000_0000_0000
    ensures r == Printed(f)
  {
    var result := AppendFlags(f);
    PartsArePieces(f, FLAGS);
    assert Parts(f, FLAGS) + [] == Parts(f, FLAGS);
    if f >= Pow2(FLAGS) {
      JoinedGrows(Parts(f, FLAGS), Decimal(f));
      result := AppendString(result, Decimal(f));
    }
    AllPartsArePieces(f);
    EmptyOnlyWhenNothing(AllParts(f));
    r := if result == "" then "-" else result;
  }

  lemma {:induction false} AllPartsArePieces(f: nat)
    ensures forall i | 0 <= i < |AllParts(f)| :: IsPiece(AllParts(f)[i])
  {
    PartsArePieces(f, FLAGS);
    assert forall i | 0 <= i < |Decimal(f)| :: IsDigit(Decimal(f)[i]);
  }

  // ----- reading it back -----

  /** The index behind the last comma of s[..n]. */
  function PieceStart(s: string, n: nat): (p: nat)
    requires n <= |s|
    ensures p <= n
    ensures p > 0 ==> s[p - 1] == ','
    ensures forall i | p <= i < n :: s[i] != ','
    decreases n, s
  {
    if n == 0 || s[n - 1] == ',' then n else PieceStart(s, n - 1)
  }

  /** s[..n] taken apart at its commas. */
  function Fields(s: string, n: nat): (fs: seq<string>)
    requires n <= |s|
    ensures fs != []
    decreases n, s
  {
    var p := PieceStart(s, n);
    if p == 0 then [s[..n]] else Fields(s, p - 1) + [s[p..n]]
  }

  lemma {:induction false} PieceStartIsUnique(s: string, n: nat, p: nat)
    requires p <= n <= |s| && (p > 0 ==> s[p - 1] == ',') && forall i | p <= i < n :: s[i] != ','
    ensures PieceStart(s, n) == p
  {
  }

  /** What stands behind a prefix does not matter to its fields. */
  lemma {:induction false} FieldsOfPrefix(s: string, t: string, n: nat)
    requires n <= |s|
    ensures Fields(s + t, n) == Fields(s, n)
    decreases n
  {
    var p := PieceStart(s, n);
    PieceStartIsUnique(s + t, n, p);
    assert (s + t)[..n] == s[..n];
    if p > 0 {
      FieldsOfPrefix(s, t, p - 1);
      assert (s + t)[p..n] == s[p..n];
    }
  }

  lemma {:induction false} FieldsOfAppended(result: string, piece: string)
    requires IsPiece(piece)
    ensures var r := Appended(result, piece);
            Fields(r, |r|) == (if result == "" then [] else Fields(result, |result|)) + [piece]
  {
    var r := Appended(result, piece);
    if result == "" {
      PieceStartIsUnique(piece, |piece|, 0);
      assert piece[..|piece|] == piece;
    } else {
      PieceStartIsUnique(r, |r|, |result| + 1);
      FieldsOfPrefix(result, "," + piece, |result|);
      assert r[|result| + 1..|r|] == piece;
    }
  }

  /** Taking a list apart gives the pieces it was joined from. */
  lemma {:induction false} JoinedRoundTrip(ps: seq<string>, n: nat)
    requires 0 < n <= |ps| && forall i | 0 <= i < |ps| :: IsPiece(ps[i])
    ensures Joined(ps, n) != "" && Fields(Joined(ps, n), |Joined(ps, n)|) == ps[..n]
    decreases n
  {
    FieldsOfAppended(Joined(ps, n - 1), ps[n - 1]);
    TakeNext(ps, n);
    if n == 1 {
      assert Joined(ps, 0) == "" && ps[..0] == [];
    } else {
      JoinedRoundTrip(ps, n - 1);
    }
  }

  lemma {:induction false} TakeNext(ps: seq<string>, n: nat)
    requires 0 < n <= |ps|
    ensures ps[..n] == ps[..n - 1] + [ps[n - 1]]
  {
  }

  /** The flags from the k-th on whose codes are listed, as a number counted from bit k. */
  function Weight(fs: seq<string>, k: nat): nat
    requires k <= FLAGS
    decreases FLAGS - k, fs
  {
    if k == FLAGS then 0 else (if Code(k) in fs then 1 else 0) + 2 * Weight(fs, k + 1)
  }

  predicate IsNumber(p: string) {
    p != "" && forall i | 0 <= i < |p| :: IsDigit(p[i])
  }

  /** The flag word a printed list stands for. */
  function Decoded(s: string): nat {
    if s == "-" then 0
    else
      var fs := Fields(s, |s|);
      var last := fs[|fs| - 1];
      if IsNumber(last) then ParseDecimal(last) else Weight(fs, 0)
  }

  lemma {:induction false} CodesDiffer(j: nat, k: nat)
    requires j < k < FLAGS
    ensures Code(j) != Code(k)
  {
  }

  /** A flag's code is among the pieces exactly when its bit is set. */
  lemma {:induction false} CodeMeansBit(f: nat, n: nat, k: nat)
    requires n <= FLAGS && k < FLAGS
    ensures Code(k) in Parts(f, n) <==> k < n && Bit(f, k)
    decreases n
  {
    if n > 0 {
      CodeMeansBit(f, n - 1, k);
      if k < n - 1 {
        CodesDiffer(k, n - 1);
      } else if n - 1 < k {
        CodesDiffer(n - 1, k);
      }
    }
  }

  lemma {:induction false} ShiftedIsSmall(f: nat, n: nat, k: nat)
    requires k <= n && f < Pow2(n)
    ensures Shifted(f, k) < Pow2(n - k)
    decreases k
  {
    if k > 0 {
      ShiftedIsSmall(f, n, k - 1);
    }
  }

  lemma {:induction false} WeightIsShifted(f: nat, k: nat)
    requires f < Pow2(FLAGS) && k <= FLAGS
    ensures Weight(Parts(f, FLAGS), k) == Shifted(f, k)
    decreases FLAGS - k
  {
    if k == FLAGS {
      ShiftedIsSmall(f, FLAGS, FLAGS);
    } else {
      CodeMeansBit(f, FLAGS, k);
      WeightIsShifted(f, k + 1);
    }
  }

  lemma {:induction false} WeightOfNone(fs: seq<string>, k: nat)
    requires k <= FLAGS && fs == ["-"]
    ensures Weight(fs, k) == 0
    decreases FLAGS - k
  {
    if k < FLAGS {
      CodesArePieces(k);
      WeightOfNone(fs, k + 1);
    }
  }

  /** What a non-empty list is decoded from is its own pieces. */
  lemma {:induction false} DecodedPieces(f: nat)
    requires AllParts(f) != []
    ensures Printed(f) != "" && Fields(Printed(f), |Printed(f)|) == AllParts(f)
  {
    AllPartsArePieces(f);
    JoinedRoundTrip(AllParts(f), |AllParts(f)|);
    assert AllParts(f)[..|AllParts(f)|] == AllParts(f);
  }

  /** Round trip: every flag word is read back from what is printed for it. */
  lemma {:induction false} PrintedRoundTrip(f: nat)
    ensures Decoded(Printed(f)) == f
  {
    var ps := AllParts(f);
    AllPartsArePieces(f);
    if f >= Pow2(FLAGS) {
      DecodedPieces(f);
      LargeIsNumber(f);
      DecimalRoundTrip(f);
    } else {
      assert ps == Parts(f, FLAGS);
      WeightIsShifted(f, 0);
      if ps == [] {
        WeightOfNothing(0);
      } else {
        DecodedPieces(f);
        DashAlone();
        if Printed(f) == "-" {
          WeightOfNone(ps, 0);
        } else {
          SmallIsNoNumber(f);
        }
      }
    }
  }

  lemma {:induction false} LargeIsNumber(f: nat)
    requires f >= Pow2(FLAGS)
    ensures AllParts(f)[|AllParts(f)| - 1] == Decimal(f) && IsNumber(Decimal(f))
    ensures Printed(f) != "-"
  {
    AllPartsArePieces(f);
    DecodedPieces(f);
    DashAlone();
  }

  lemma {:induction false} SmallIsNoNumber(f: nat)
    requires f < Pow2(FLAGS) && AllParts(f) != []
    ensures AllParts(f) == Parts(f, FLAGS) && !IsNumber(AllParts(f)[|AllParts(f)| - 1])
  {
    PartsArePieces(f, FLAGS);
    assert AllParts(f) == Parts(f, FLAGS);
  }

  lemma {:induction false} DashAlone()
    ensures Fields("-", 1) == ["-"]
  {
    var dash := "-";
    PieceStartIsUnique(dash, 1, 0);
    assert dash[..1] == dash;
  }

  lemma {:induction false} WeightOfNothing(k: nat)
    requires k <= FLAGS
    ensures Weight([], k) == 0
    decreases FLAGS - k
  {
    if k < FLAGS {
      WeightOfNothing(k + 1);
    }
  }

  /** No two flag words are printed alike. */
  lemma {:induction false} PrintedIsInjective(f: nat, g: nat)
    requires Printed(f) == Printed(g)
    ensures f == g
  {
    PrintedRoundTrip(f);
    PrintedRoundTrip(g);
  }

  // ----- what the metrics compare with -----

  lemma {:induction false} ShiftedPower(k: nat, j: nat)
    ensures Shifted(Pow2(k), j) == if j <= k then Pow2(k - j) else 0
    decreases j
  {
    if j > 0 {
      ShiftedPower(k, j - 1);
    }
  }

  lemma {:induction false} PartsOfPower(k: nat, n: nat)
    requires k < FLAGS && n <= FLAGS
    ensures Parts(Pow2(k), n) == if n <= k then [] else [Code(k)]
    decreases n
  {
    if n > 0 {
      PartsOfPower(k, n - 1);
      ShiftedPower(k, n - 1);
      if n - 1 < k {
        assert Pow2(k - (n - 1)) == 2 * Pow2(k - n);
      }
    }
  }

  lemma {:induction false} PowersGrow(j: nat, k: nat)
    requires j < k
    ensures Pow2(j) < Pow2(k)
    decreases k
  {
    if j < k - 1 {
      PowersGrow(j, k - 1);
    }
  }

  lemma {:induction false} PrintedPower(k: nat)
    requires k < FLAGS
    ensures Printed(Pow2(k)) == Code(k)
  {
    PartsOfPower(k, FLAGS);
    PowersGrow(k, FLAGS);
    var ps := AllParts(Pow2(k));
    assert ps == [Code(k)];
    assert Joined(ps, 0) == "" && Joined(ps, 1) == Code(k);
  }

  /** A comparison with one flag's code holds for that flag alone, and for nothing else. */
  lemma {:induction false} EqualsCode(f: nat, k: nat)
    requires k < FLAGS
    ensures Printed(f) == Code(k) <==> f == Pow2(k)
  {
    PrintedPower(k);
    if Printed(f) == Code(k) {
      PrintedIsInjective(f, Pow2(k));
    }
  }

  // ----- the flags, written out -----

  lemma {:induction false} QuotientIsUnique(f: nat, d: nat, q: nat, r: nat)
    requires r < d && f == d * q + r
    ensures f / d == q
  {
    var e, t := f / d, f % d;
    assert f == d * e + t;
    MultiplesApart(d, e, q);
    MultiplesApart(d, q, e);
  }

  lemma {:induction false} MultiplesApart(d: nat, a: int, b: int)
    ensures a < b ==> d * a + d <= d * b
  {
    if a < b {
      assert d * b == d * (a + 1) + d * (b - a - 1);
    }
  }

  lemma {:induction false} HalfOfQuotient(f: nat, d: nat)
    requires d > 0
    ensures f / d / 2 == f / (2 * d)
  {
    var q, r := f / d, f % d;
    assert f == d * q + r && q == 2 * (q / 2) + q % 2;
    assert d * q == 2 * d * (q / 2) + d * (q % 2);
    assert d * (q % 2) + r < 2 * d;
    QuotientIsUnique(f, 2 * d, q / 2, d * (q % 2) + r);
  }

  /** Shifting is dividing. */
  lemma {:induction false} ShiftedIsQuotient(f: nat, k: nat)
    ensures Shifted(f, k) == f / Pow2(k)
    decreases k
  {
    if k > 0 {
      ShiftedIsQuotient(f, k - 1);
      HalfOfQuotient(f, Pow2(k - 1));
    }
  }

  /** A flag's code is one of the printed fields exactly when its bit is set. */
  lemma {:induction false} FieldsShowBits(f: nat, k: nat)
    requires k < FLAGS
    ensures Code(k) in Fields(Printed(f), |Printed(f)|) <==> Bit(f, k)
  {
    CodesArePieces(k);
    CodeMeansBit(f, FLAGS, k);
    if AllParts(f) == [] {
      DashAlone();
    } else {
      DecodedPieces(f);
      assert Code(k) in AllParts(f) <==> Code(k) in Parts(f, FLAGS) || (f >= Pow2(FLAGS) && Code(k) == Decimal(f));
    }
  }

  /** The code is one of the fields exactly when the mask's bit is set, and alone exactly for the mask. */
  predicate Shows(f: nat, code: string, mask: nat)
    requires mask > 0
  {
    && (code in Fields(Printed(f), |Printed(f)|) <==> f / mask % 2 == 1)
    && (Printed(f) == code <==> f == mask)
  }

  lemma {:induction false} ShowsFlag(f: nat, k: nat, code: string, mask: nat)
    requires k < FLAGS && code == Code(k) && mask == Pow2(k)
    ensures Shows(f, code, mask)
  {
    FieldsShowBits(f, k);
    ShiftedIsQuotient(f, k);
    EqualsCode(f, k);
  }

  lemma {:induction false} Powers()
    ensures Pow2(0) == 0x1 && Pow2(1) == 0x2 && Pow2(2) == 0x4 && Pow2(3) == 0x8 && Pow2(4) == 0x10
    ensures Pow2(5) == 0x20 && Pow2(6) == 0x40 && Pow2(7) == 0x80 && Pow2(8) == 0x100 && Pow2(9) == 0x200
    ensures Pow2(10) == 0x400 && Pow2(11) == 0x800 && Pow2(12) == 0x1000 && Pow2(13) == 0x2000
    ensures Pow2(14) == 0x4000 && Pow2(15) == 0x8000 && Pow2(16) == 0x10000 && Pow2(17) == 0x20000
    ensures Pow2(18) == 0x40000
  {
  }

  /** The fields come in the order of their bits. */
  lemma {:induction false} PartsInOrder(f: nat, j: nat, k: nat, n: nat) returns (a: nat, b: nat)
    requires j < k < n <= FLAGS && Bit(f, j) && Bit(f, k)
    ensures a < b < |Parts(f, n)| && Parts(f, n)[a] == Code(j) && Parts(f, n)[b] == Code(k)
    decreases n
  {
    if k < n - 1 {
      a, b := PartsInOrder(f, j, k, n - 1);
    } else {
      CodeMeansBit(f, n - 1, j);
      a :| 0 <= a < |Parts(f, n - 1)| && Parts(f, n - 1)[a] == Code(j);
      b := |Parts(f, n - 1)|;
    }
  }

  lemma {:induction false} FieldsInOrder(f: nat, j: nat, k: nat) returns (a: nat, b: nat)
    requires j < k < FLAGS && Bit(f, j) && Bit(f, k)
    ensures var fs := Fields(Printed(f), |Printed(f)|); a < b < |fs| && fs[a] == Code(j) && fs[b] == Code(k)
  {
    a, b := PartsInOrder(f, j, k, FLAGS);
    DecodedPieces(f);
    assert AllParts(f)[a] == Parts(f, FLAGS)[a] && AllParts(f)[b] == Parts(f, FLAGS)[b];
  }

  /** Two flags: their codes with a comma between. */
  lemma {:induction false} CommaBetween(f: nat)
    requires f == 3
    ensures Printed(f) == "LH,UH"
  {
    Powers();
    HigherBitsUnset(f, FLAGS);
    assert Parts(f, 0) == [] && Bit(f, 0) && Bit(f, 1);
    assert Parts(f, 1) == ["LH"] && Parts(f, 2) == ["LH", "UH"];
    var ps := AllParts(f);
    assert Pow2(FLAGS) > f && ps == ["LH", "UH"];
    assert Joined(ps, 0) == "" && Joined(ps, 1) == "LH" && Joined(ps, 2) == "LH" + ("," + "UH");
  }

  lemma {:induction false} HigherBitsUnset(f: nat, n: nat)
    requires f == 3 && 2 <= n <= FLAGS
    ensures Shifted(f, n) == 0 && Parts(f, n) == Parts(f, 2)
    decreases n
  {
    if n > 2 {
      HigherBitsUnset(f, n - 1);
    } else {
      assert Shifted(f, 0) == 3 && Shifted(f, 1) == 1;
    }
  }

  function Pow10(i: nat): (n: nat)
    ensures n > 0
  {
    if i == 0 then 1 else 10 * Pow10(i - 1)
  }

  lemma {:induction false} TenthOfQuotient(n: nat, d: nat)
    requires d > 0
    ensures n / 10 / d == n / (10 * d)
  {
    var m, r := n / 10, n % 10;
    var q, t := m / d, m % d;
    assert n == 10 * m + r && m == d * q + t;
    assert n == 10 * d * q + (10 * t + r);
    QuotientIsUnique(n, 10 * d, q, 10 * t + r);
  }

  /** The number's digits are the decimal ones, the last for the units, and none too many. */
  lemma {:induction false} DecimalDigits(n: nat, i: nat)
    requires i < |Decimal(n)|
    ensures Decimal(n)[|Decimal(n)| - 1 - i] as int == 48 + n / Pow10(i) % 10
    ensures |Decimal(n)| > 1 ==> Decimal(n)[0] != '0'
    decreases n
  {
    if n >= 10 {
      DecimalDigits(n / 10, if i > 0 then i - 1 else 0);
      if i > 0 {
        TenthOfQuotient(n, Pow10(i - 1));
      }
    }
  }

  /** A number too large for the flags is the last field, written out. */
  lemma {:induction false} LastFieldIsNumber(f: nat)
    ensures var fs := Fields(Printed(f), |Printed(f)|);
            f >= 0x80000 <==> fs[|fs| - 1] == Decimal(f)
  {
    Powers();
    assert Pow2(FLAGS) == 0x80000;
    if AllParts(f) == [] {
      DashAlone();
      assert IsDigit(Decimal(f)[0]);
    } else {
      DecodedPieces(f);
      PartsArePieces(f, FLAGS);
      assert IsDigit(Decimal(f)[0]);
    }
  }

  /** The nineteen flags: code and mask. */
  lemma {:induction false} LowFlags(f: nat)
    ensures Shows(f, "LH", 0x1)
    ensures Shows(f, "UH", 0x2)
    ensures Shows(f, "UT", 0x4)
    ensures Shows(f, "LR", 0x8)
    ensures Shows(f, "UR", 0x10)
    ensures Shows(f, "UF", 0x20)
    ensures Shows(f, "UC", 0x40)
  {
    Powers();
    ShowsFlag(f, 0, "LH", 0x1);
    ShowsFlag(f, 1, "UH", 0x2);
    ShowsFlag(f, 2, "UT", 0x4);
    ShowsFlag(f, 3, "LR", 0x8);
    ShowsFlag(f, 4, "UR", 0x10);
    ShowsFlag(f, 5, "UF", 0x20);
    ShowsFlag(f, 6, "UC", 0x40);
  }

  lemma {:induction false} MiddleFlags(f: nat)
    ensures Shows(f, "UO", 0x80)
    ensures Shows(f, "NR", 0x100)
    ensures Shows(f, "DI", 0x200)
    ensures Shows(f, "FI", 0x400)
    ensures Shows(f, "RL", 0x800)
    ensures Shows(f, "UAEX", 0x1000)
  {
    Powers();
    ShowsFlag(f, 7, "UO", 0x80);
    ShowsFlag(f, 8, "NR", 0x100);
    ShowsFlag(f, 9, "DI", 0x200);
    ShowsFlag(f, 10, "FI", 0x400);
    ShowsFlag(f, 11, "RL", 0x800);
    ShowsFlag(f, 12, "UAEX", 0x1000);
  }

  lemma {:induction false} HighFlags(f: nat)
    ensures Shows(f, "RLSE", 0x2000)
    ensures Shows(f, "DC", 0x4000)
    ensures Shows(f, "URX", 0x8000)
    ensures Shows(f, "SI", 0x10000)
    ensures Shows(f, "IH", 0x20000)
    ensures Shows(f, "DPE", 0x40000)
  {
    Powers();
    ShowsFlag(f, 13, "RLSE", 0x2000);
    ShowsFlag(f, 14, "DC", 0x4000);
    ShowsFlag(f, 15, "URX", 0x8000);
    ShowsFlag(f, 16, "SI", 0x10000);
    ShowsFlag(f, 17, "IH", 0x20000);
    ShowsFlag(f, 18, "DPE", 0x40000);
  }

  /** The two counters of the metrics filter that look at the printed flags. */
  function ExtauthRejected(responseFlag: string): nat {
    if responseFlag == "UAEX" then 1 else 0
  }

  function RateLimited(responseFlag: string): nat {
    if responseFlag == "RL" then 1 else 0
  }

  /** They count a request exactly when the one flag is set and no other: a rejected or limited
      request that carries a second flag is missed. */
  lemma {:induction false} CountersSeeSingleFlags(f: nat)
    ensures ExtauthRejected(Printed(f)) == 1 <==> f == 0x1000
    ensures RateLimited(Printed(f)) == 1 <==> f == 0x800
  {
    EqualsCode(f, 12);
    EqualsCode(f, 11);
    assert Pow2(11) == 0x800 && Pow2(12) == 0x1000;
  }

  /** "-" is printed for no flags, and only then. */
  lemma {:induction false} DashMeansNone(f: nat)
    ensures Printed(f) == "-" <==> f == 0
  {
    PrintedRoundTrip(f);
    if f == 0 {
      NoParts(0, FLAGS);
      assert Pow2(FLAGS) > 0;
    }
  }

  lemma {:induction false} NoParts(f: nat, n: nat)
    requires f == 0 && n <= FLAGS
    ensures Parts(f, n) == [] && Shifted(f, n) == 0
    decreases n
  {
    if n > 0 {
      NoParts(f, n - 1);
    }
  }
}
