/** generate_ship_data_json (backend/generate_ship_data.py): the ship-info
    CSV read row by row, every header and value stripped, and each row that
    names a carrier appended to that carrier's list, in file order. */
module ShipData {
  import opened Seqs
  import opened Text
  import Maps

  const COMPANY: string := "선사"
  const CALL_SIGN: string := "호출부호"
  const SHIP_NAME: string := "선명"
  const TONNAGE: string := "총톤수"
  const LOA: string := "LOA"

  /** One data line as csv.DictReader hands it over: (header, value) pairs in
      header order. `ragged` marks a line whose field count differs from the
      header's, for which the reader fills in None (a missing value, or a
      None key for the surplus) and the strip below raises. */
  datatype CsvRow = CsvRow(pairs: seq<(string, string)>, ragged: bool)

  /** One entry of a carrier's list. */
  datatype ShipInfo = ShipInfo(callSign: Option<string>, shipName: Option<string>, grossTonnage: int, loa: int)

  /** Why no JSON file is written: the CSV is missing, a line is ragged, or
      a tonnage or LOA cell is not an integer literal. */
  datatype GenError = NotFound | Ragged | InvalidLiteral(text: string)

  // ---------------------------------------------------------------------------
  // int() on a stripped string.

  predicate IsDigit(c: char)
  {
    '0' <= c <= '9'
  }

  predicate AllDigits(s: string)
  {
    forall i :: 0 <= i < |s| ==> IsDigit(s[i])
  }

  /** int(s) for a string with no surrounding whitespace: an optional sign
      and at least one decimal digit; anything else raises ValueError. */
  function ParseInt(s: string): (r: Option<int>)
    ensures r.Some? ==> s != [] && AllDigits(if s[0] == '-' || s[0] == '+' then s[1..] else s)
    ensures s == [] ==> r.None?
  {
    if s == [] then None
    else
      var negative := s[0] == '-';
      var digits := if s[0] == '-' || s[0] == '+' then s[1..] else s;
      if digits == [] || !AllDigits(digits) then None
      else if negative then Some(-(DigitsValue(digits) as int))
      else Some(DigitsValue(digits) as int)
  }

  /** str(n). */
  function IntString(n: int): string
  {
    if n < 0 then "-" + Decimal(-n) else Decimal(n)
  }

  /** int(str(n)) == n. */
  lemma ParseIntRoundTrip(n: int)
    ensures ParseInt(IntString(n)) == Some(n)
  {
    var d := Decimal(if n < 0 then -n else n);
    assert AllDigits(d) && IsDigit(d[0]);
    DecimalRoundTrip(if n < 0 then -n else n);
    if n < 0 {
      var s := IntString(n);
      assert s[0] == '-' && s[1..] == d;
    }
  }

  // ---------------------------------------------------------------------------
  // One row.

  /** A dict built from pairs in order: a repeated key keeps the later value. */
  function LastWins<K, V>(pairs: seq<(K, V)>): map<K, V>
  {
    if pairs == [] then map[]
    else
      var p := pairs[|pairs| - 1];
      LastWins(pairs[..|pairs| - 1])[p.0 := p.1]
  }

  /** The keys are those of the pairs. */
  lemma {:induction false} LastWinsKeys<K, V>(pairs: seq<(K, V)>, k: K)
    ensures k in LastWins(pairs) <==> exists i :: 0 <= i < |pairs| && pairs[i].0 == k
    decreases |pairs|
  {
    if pairs != [] {
      var n := |pairs| - 1;
      LastWinsKeys(pairs[..n], k);
      assert forall i :: 0 <= i < n ==> pairs[..n][i] == pairs[i];
    }
  }

  /** A key's value is the one of the last pair with that key. */
  lemma {:induction false} LastWinsValue<K, V>(pairs: seq<(K, V)>, k: K) returns (i: nat)
    requires k in LastWins(pairs)
    ensures i < |pairs| && pairs[i].0 == k && LastWins(pairs)[k] == pairs[i].1
    ensures forall j :: i < j < |pairs| ==> pairs[j].0 != k
    decreases |pairs|
  {
    var n := |pairs| - 1;
    if pairs[n].0 == k {
      i := n;
    } else {
      var front := pairs[..n];
      i := LastWinsValue(front, k);
      assert forall j :: 0 <= j < n ==> front[j] == pairs[j];
    }
  }

  /** Each header and value stripped. */
  function StripPairs(pairs: seq<(string, string)>): (r: seq<(string, string)>)
    ensures |r| == |pairs|
    ensures forall i :: 0 <= i < |r| ==> r[i] == (Strip(pairs[i].0), Strip(pairs[i].1))
  {
    seq(|pairs|, i requires 0 <= i < |pairs| => (Strip(pairs[i].0), Strip(pairs[i].1)))
  }

  /** `{k.strip(): v.strip() for k, v in row.items()}`: two headers that strip
      to the same text keep the later value. */
  function Clean(pairs: seq<(string, string)>): map<string, string>
  {
    LastWins(StripPairs(pairs))
  }

  /** A key of the cleaned row is a stripped header. */
  lemma CleanKeys(pairs: seq<(string, string)>, k: string)
    ensures k in Clean(pairs) <==> exists i :: 0 <= i < |pairs| && Strip(pairs[i].0) == k
  {
    var sp := StripPairs(pairs);
    LastWinsKeys(sp, k);
    if k in Clean(pairs) {
      var i :| 0 <= i < |sp| && sp[i].0 == k;
      assert Strip(pairs[i].0) == k;
    }
  }

  /** The value under a key is the stripped value of the last pair whose
      header strips to that key. */
  lemma CleanValue(pairs: seq<(string, string)>, k: string) returns (i: nat)
    requires k in Clean(pairs)
    ensures i < |pairs| && Strip(pairs[i].0) == k && Clean(pairs)[k] == Strip(pairs[i].1)
    ensures forall j :: i < j < |pairs| ==> Strip(pairs[j].0) != k
  {
    var sp := StripPairs(pairs);
    i := LastWinsValue(sp, k);
  }

  /** Every key and every value of a cleaned row is already stripped. */
  lemma CleanStripped(pairs: seq<(string, string)>)
    ensures forall k :: k in Clean(pairs) ==> Strip(k) == k && Strip(Clean(pairs)[k]) == Clean(pairs)[k]
  {
    forall k | k in Clean(pairs)
      ensures Strip(k) == k && Strip(Clean(pairs)[k]) == Clean(pairs)[k]
    {
      var i := CleanValue(pairs, k);
      StripIdempotent(pairs[i].0);
      StripIdempotent(pairs[i].1);
    }
  }

  /** `cleaned_row.get(key)`. */
  function Lookup(cleaned: map<string, string>, key: string): Option<string>
  {
    if key in cleaned then Some(cleaned[key]) else None
  }

  /** `int(cleaned_row.get(key, 0))`: 0 when the column is absent. */
  function IntField(cleaned: map<string, string>, key: string): Result<int, GenError>
  {
    if key !in cleaned then Ok(0)
    else
      match ParseInt(cleaned[key])
      case None => Err(InvalidLiteral(cleaned[key]))
      case Some(n) => Ok(n)
  }

  /** The ship_info dict of a kept row; the tonnage is converted first, so
      its error wins over LOA's. */
  function Info(cleaned: map<string, string>): Result<ShipInfo, GenError>
  {
    var gross := IntField(cleaned, TONNAGE);
    var loa := IntField(cleaned, LOA);
    if gross.Err? then Err(gross.error)
    else if loa.Err? then Err(loa.error)
    else Ok(ShipInfo(Lookup(cleaned, CALL_SIGN), Lookup(cleaned, SHIP_NAME), gross.value, loa.value))
  }

  /** An entry holds the stripped call sign and name when those columns
      exist, and the integers read from the tonnage and LOA cells, 0 for a
      column that does not exist. */
  lemma InfoFields(cleaned: map<string, string>)
    ensures Info(cleaned).Ok? <==>
      (TONNAGE in cleaned ==> ParseInt(cleaned[TONNAGE]).Some?) && (LOA in cleaned ==> ParseInt(cleaned[LOA]).Some?)
    ensures Info(cleaned).Ok? ==>
      && Info(cleaned).value.callSign == (if CALL_SIGN in cleaned then Some(cleaned[CALL_SIGN]) else None)
      && Info(cleaned).value.shipName == (if SHIP_NAME in cleaned then Some(cleaned[SHIP_NAME]) else None)
      && Info(cleaned).value.grossTonnage == (if TONNAGE in cleaned then ParseInt(cleaned[TONNAGE]).value else 0)
      && Info(cleaned).value.loa == (if LOA in cleaned then ParseInt(cleaned[LOA]).value else 0)
    ensures TONNAGE in cleaned && ParseInt(cleaned[TONNAGE]).None? ==> Info(cleaned) == Err(InvalidLiteral(cleaned[TONNAGE]))
  {
  }

  /** The carrier a row is filed under: the stripped 선사 value, when the
      line is well formed and that value is non-empty. */
  function Company(row: CsvRow): Option<string>
  {
    var cleaned := Clean(row.pairs);
    if !row.ragged && COMPANY in cleaned && cleaned[COMPANY] != "" then Some(cleaned[COMPANY]) else None
  }

  /** The carrier under which a row is filed is a non-empty stripped string. */
  lemma CompanyStripped(row: CsvRow)
    ensures Company(row).Some? ==> Company(row).value != "" && Strip(Company(row).value) == Company(row).value
  {
    CleanStripped(row.pairs);
  }

  /** A row stops the run when it is ragged or it is filed under a carrier
      and a number in it does not parse. */
  predicate Fails(row: CsvRow)
  {
    row.ragged || (Company(row).Some? && Info(Clean(row.pairs)).Err?)
  }

  /** The error such a row raises. */
  function RowError(row: CsvRow): GenError
    requires Fails(row)
  {
    if row.ragged then Ragged else Info(Clean(row.pairs)).error
  }

  // ---------------------------------------------------------------------------
  // The whole file.

  /** `ship_data_by_company[company].append(info)` on a defaultdict(list). */
  function Append(m: map<string, seq<ShipInfo>>, company: string, info: ShipInfo): map<string, seq<ShipInfo>>
  {
    m[company := (if company in m then m[company] else []) + [info]]
  }

  /** One loop iteration. */
  function AddRow(m: map<string, seq<ShipInfo>>, row: CsvRow): Result<map<string, seq<ShipInfo>>, GenError>
  {
    if Fails(row) then Err(RowError(row))
    else if Company(row).Some? then Ok(Append(m, Company(row).value, Info(Clean(row.pairs)).value))
    else Ok(m)
  }

  /** The dict that is dumped after the rows, or the error that stops the
      run first. */
  function Grouped(rows: seq<CsvRow>): Result<map<string, seq<ShipInfo>>, GenError>
  {
    if rows == [] then Ok(map[])
    else
      match Grouped(rows[..|rows| - 1])
      case Err(e) => Err(e)
      case Ok(m) => AddRow(m, rows[|rows| - 1])
  }

  /** Reads the rows and groups them by carrier; a missing file, a ragged
      line or a bad number ends the run with an error and writes nothing. */
  method GenerateShipDataJson(file: Option<seq<CsvRow>>) returns (r: Result<map<string, seq<ShipInfo>>, GenError>)
    ensures file.None? ==> r == Err(NotFound)
    ensures file.Some? ==> r == Grouped(file.value)
  {
    if file.None? {
      return Err(NotFound);
    }
    var rows := file.value;
    var byCompany: map<string, seq<ShipInfo>> := map[];
    var i := 0;
    while i < |rows|
      invariant 0 <= i <= |rows|
      invariant Grouped(rows[..i]) == Ok(byCompany)
    {
      assert rows[..i + 1][..i] == rows[..i];
      var row := rows[i];
      if row.ragged {
        GroupedErrSticky(rows, i + 1);
        return Err(Ragged);
      }
      var cleaned := Clean(row.pairs);
      if COMPANY in cleaned && cleaned[COMPANY] != "" {
        var company := cleaned[COMPANY];
        var info := Info(cleaned);
        if info.Err? {
          GroupedErrSticky(rows, i + 1);
          return Err(info.error);
        }
        byCompany := byCompany[company := (if company in byCompany then byCompany[company] else []) + [info.value]];
      }
      i := i + 1;
    }
    assert rows[..|rows|] == rows;
    r := Ok(byCompany);
  }

  /** Once a prefix has failed, the run fails with the same error. */
  lemma {:induction false} GroupedErrSticky(rows: seq<CsvRow>, i: nat)
    requires i <= |rows| && Grouped(rows[..i]).Err?
    ensures Grouped(rows) == Grouped(rows[..i])
    decreases |rows| - i
  {
    if i < |rows| {
      assert rows[..i + 1][..i] == rows[..i];
      GroupedErrSticky(rows, i + 1);
    } else {
      assert rows[..i] == rows;
    }
  }

  // ---------------------------------------------------------------------------
  // What the dict holds.

  /** The reference list of a carrier: the entries of the rows filed under
      it, in file order. */
  function Entries(rows: seq<CsvRow>, company: string): seq<ShipInfo>
  {
    if rows == [] then []
    else
      var row := rows[|rows| - 1];
      Entries(rows[..|rows| - 1], company)
      + if Company(row) == Some(company) && Info(Clean(row.pairs)).Ok? then [Info(Clean(row.pairs)).value] else []
  }

  /** The run succeeds exactly when no row fails. */
  lemma {:induction false} GroupedOk(rows: seq<CsvRow>)
    ensures Grouped(rows).Ok? <==> forall i :: 0 <= i < |rows| ==> !Fails(rows[i])
    decreases |rows|
  {
    if rows != [] {
      var n := |rows| - 1;
      GroupedOk(rows[..n]);
      assert forall i :: 0 <= i < n ==> rows[..n][i] == rows[i];
      if Grouped(rows[..n]).Err? {
        var i :| 0 <= i < n && Fails(rows[..n][i]);
        assert Fails(rows[i]);
      }
    }
  }

  /** A failing run reports the first failing row's error. */
  lemma {:induction false} GroupedFirstError(rows: seq<CsvRow>, i: nat)
    requires i < |rows| && Fails(rows[i])
    requires forall j :: 0 <= j < i ==> !Fails(rows[j])
    ensures Grouped(rows) == Err(RowError(rows[i]))
  {
    var front := rows[..i];
    assert forall j :: 0 <= j < i ==> front[j] == rows[j];
    GroupedOk(front);
    assert rows[..i + 1][..i] == front;
    GroupedErrSticky(rows, i + 1);
  }

  /** A successful run files every entry under its carrier: the carriers
      are exactly those with a non-empty reference list, and each list is
      that carrier's entries in file order. */
  lemma {:induction false} GroupedIsEntries(rows: seq<CsvRow>)
    requires Grouped(rows).Ok?
    ensures forall c :: c in Grouped(rows).value <==> Entries(rows, c) != []
    ensures forall c :: c in Grouped(rows).value ==> Grouped(rows).value[c] == Entries(rows, c)
    decreases |rows|
  {
    if rows != [] {
      var front := rows[..|rows| - 1];
      GroupedIsEntries(front);
    }
  }

  /** How many rows are filed under some carrier. */
  function KeptCount(rows: seq<CsvRow>): nat
  {
    if rows == [] then 0
    else KeptCount(rows[..|rows| - 1]) + if Company(rows[|rows| - 1]).Some? then 1 else 0
  }

  /** Each carrier's list length. */
  function Lengths(m: map<string, seq<ShipInfo>>): map<string, nat>
  {
    map c | c in m :: |m[c]|
  }

  /** Appending an entry raises its carrier's length by one. */
  lemma LengthsAppend(m: map<string, seq<ShipInfo>>, company: string, info: ShipInfo)
    ensures Lengths(Append(m, company, info))
      == Lengths(m)[company := (if company in Lengths(m) then Lengths(m)[company] else 0) + 1]
  {
  }

  /** The lists of a successful run hold one entry per row that names a
      carrier, and no other. */
  lemma {:induction false} GroupedTotal(rows: seq<CsvRow>)
    requires Grouped(rows).Ok?
    ensures Maps.SumValues(Lengths(Grouped(rows).value)) == KeptCount(rows)
    decreases |rows|
  {
    if rows == [] {
      assert Lengths(map[]) == map[];
    } else {
      var front := rows[..|rows| - 1];
      var row := rows[|rows| - 1];
      GroupedTotal(front);
      var m := Grouped(front).value;
      if Company(row).Some? {
        var c := Company(row).value;
        LengthsAppend(m, c, Info(Clean(row.pairs)).value);
        Maps.Increment(Lengths(m), c);
      }
    }
  }
}
