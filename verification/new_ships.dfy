/** find_and_save_new_ships (check_new_ships.py): the vessel names in a
    crawl that the ship-info table does not list yet, each with its carrier,
    written in ascending name order. */
module NewShips {
  import opened Seqs
  import opened ScheduleRows

  // ---------------------------------------------------------------------------
  // Python's string order: code point by code point, a proper prefix first.

  predicate LexLess(a: string, b: string)
    decreases |a|
  {
    if a == [] then b != []
    else if b == [] then false
    else a[0] < b[0] || (a[0] == b[0] && LexLess(a[1..], b[1..]))
  }

  lemma {:induction false} LexIrreflexive(a: string)
    ensures !LexLess(a, a)
    decreases |a|
  {
    if a != [] {
      LexIrreflexive(a[1..]);
    }
  }

  lemma {:induction false} LexTransitive(a: string, b: string, c: string)
    requires LexLess(a, b) && LexLess(b, c)
    ensures LexLess(a, c)
    decreases |a|
  {
    if a != [] && a[0] == b[0] && b[0] == c[0] {
      LexTransitive(a[1..], b[1..], c[1..]);
    }
  }

  lemma {:induction false} LexTotal(a: string, b: string)
    ensures a == b || LexLess(a, b) || LexLess(b, a)
    decreases |a|
  {
    if a != [] && b != [] && a[0] == b[0] {
      LexTotal(a[1..], b[1..]);
      if a[1..] == b[1..] {
        assert a == [a[0]] + a[1..] && b == [b[0]] + b[1..];
      }
    }
  }

  lemma LexAsymmetric(a: string, b: string)
    requires LexLess(a, b)
    ensures !LexLess(b, a)
  {
    if LexLess(b, a) {
      LexTransitive(a, b, a);
      LexIrreflexive(a);
    }
  }

  /** m comes before every other element of s. */
  predicate IsLeast(m: string, s: set<string>)
  {
    m in s && forall y :: y in s && y != m ==> LexLess(m, y)
  }

  /** A non-empty finite set of strings has a least element. */
  lemma {:induction false} LeastWitness(s: set<string>) returns (m: string)
    requires s != {}
    ensures IsLeast(m, s)
    decreases |s|
  {
    var x :| x in s;
    if s == {x} {
      m := x;
    } else {
      var rest := s - {x};
      var r := LeastWitness(rest);
      LexTotal(x, r);
      if LexLess(x, r) {
        m := x;
        forall y | y in s && y != m
          ensures LexLess(m, y)
        {
          if y != r {
            LexTransitive(x, r, y);
          }
        }
      } else {
        m := r;
      }
    }
  }

  lemma LeastExists(s: set<string>)
    requires s != {}
    ensures exists m :: IsLeast(m, s)
  {
    var m := LeastWitness(s);
  }

  /** The least element is unique. */
  lemma LeastUnique(s: set<string>, m1: string, m2: string)
    requires IsLeast(m1, s) && IsLeast(m2, s)
    ensures m1 == m2
  {
    if m1 != m2 {
      LexAsymmetric(m1, m2);
    }
  }

  /** sorted(): the elements of s in ascending order. */
  function SortedNames(s: set<string>): (r: seq<string>)
    ensures |r| == |s|
    ensures forall x :: x in r <==> x in s
    ensures forall i :: 0 <= i < |r| ==> r[i] in s
    ensures forall i, j :: 0 <= i < j < |r| ==> LexLess(r[i], r[j])
    decreases |s|
  {
    if s == {} then []
    else
      LeastExists(s);
      assert forall m1, m2 :: IsLeast(m1, s) && IsLeast(m2, s) ==> m1 == m2 by {
        forall m1, m2 | IsLeast(m1, s) && IsLeast(m2, s)
          ensures m1 == m2
        {
          LeastUnique(s, m1, m2);
        }
      }
      var m :| IsLeast(m, s);
      var rest := SortedNames(s - {m});
      assert forall i :: 0 <= i < |rest| ==> rest[i] in s && rest[i] != m && LexLess(m, rest[i]);
      [m] + rest
  }

  // ---------------------------------------------------------------------------
  // The comparison itself.

  /** `{ship['선명']: ship['선사'] for ship in crawled if both keys}`: a later
      record with the same name replaces the carrier. */
  function CompanyByName(recs: seq<Record>): map<string, string>
  {
    if recs == [] then map[]
    else
      var m := CompanyByName(recs[..|recs| - 1]);
      var r := recs[|recs| - 1];
      if NAME in r && CARRIER in r then m[r[NAME] := r[CARRIER]] else m
  }

  /** Record i counts for the name map. */
  predicate Named(recs: seq<Record>, i: nat)
    requires i < |recs|
  {
    NAME in recs[i] && CARRIER in recs[i]
  }

  /** The map holds exactly the names of records with both keys. */
  lemma {:induction false} CompanyByNameKeys(recs: seq<Record>, name: string)
    ensures name in CompanyByName(recs) <==> exists i :: 0 <= i < |recs| && Named(recs, i) && recs[i][NAME] == name
    decreases |recs|
  {
    if recs != [] {
      var n := |recs| - 1;
      CompanyByNameKeys(recs[..n], name);
      assert forall i :: 0 <= i < n ==> recs[..n][i] == recs[i];
    }
  }

  /** Each name maps to the carrier of the last record with both keys and
      that name. */
  lemma {:induction false} CompanyByNameValue(recs: seq<Record>, name: string) returns (i: nat)
    requires name in CompanyByName(recs)
    ensures i < |recs| && Named(recs, i) && recs[i][NAME] == name && CompanyByName(recs)[name] == recs[i][CARRIER]
    ensures forall j :: i < j < |recs| && Named(recs, j) ==> recs[j][NAME] != name
    decreases |recs|
  {
    var n := |recs| - 1;
    if Named(recs, n) && recs[n][NAME] == name {
      i := n;
    } else {
      var front := recs[..n];
      i := CompanyByNameValue(front, name);
      assert forall j :: 0 <= j < n ==> front[j] == recs[j];
    }
  }

  /** The existing ship-info file: missing, unreadable, or the 선명 column. */
  datatype ExistingFile = Missing | Unreadable | Loaded(names: seq<string>)

  /** The existing names; a missing file counts as none. */
  function ExistingNames(f: ExistingFile): set<string>
  {
    match f
    case Loaded(names) => set i | 0 <= i < |names| :: names[i]
    case _ => {}
  }

  /** One line of the output CSV. */
  datatype NewShip = NewShip(company: string, name: string)

  /** What the run leaves behind: nothing when the existing file cannot be
      read, otherwise a CSV with a 선사,선명 header and these rows. */
  datatype Outcome = Aborted | Csv(rows: seq<NewShip>)

  /** The crawled names that are not in the existing set. */
  function NewNames(existing: set<string>, recs: seq<Record>): set<string>
  {
    CompanyByName(recs).Keys - existing
  }

  /** One CSV row per name, with the carrier the map gives it. */
  function Rows(dict: map<string, string>, names: seq<string>): (rows: seq<NewShip>)
    requires forall i :: 0 <= i < |names| ==> names[i] in dict
    ensures |rows| == |names|
    ensures forall k :: 0 <= k < |rows| ==> rows[k].name == names[k] && rows[k].company == dict[names[k]]
  {
    seq(|names|, i requires 0 <= i < |names| => NewShip(dict[names[i]], names[i]))
  }

  /** The output rows: the new names in ascending order, each with its carrier. */
  function NewShipRows(existing: set<string>, recs: seq<Record>): seq<NewShip>
  {
    Rows(CompanyByName(recs), SortedNames(NewNames(existing, recs)))
  }

  /** Reads the existing names, compares with the crawl, and writes the new
      ones in name order, or only the header when the crawl is empty or
      brings nothing new. */
  method FindAndSaveNewShips(existing: ExistingFile, crawled: Option<seq<Record>>) returns (out: Outcome)
    ensures out.Aborted? <==> existing.Unreadable?
    ensures out.Csv? && (crawled.None? || crawled.value == []) ==> out.rows == []
    ensures out.Csv? && crawled.Some? ==> out.rows == NewShipRows(ExistingNames(existing), crawled.value)
  {
    if existing.Unreadable? {
      return Aborted;
    }
    var existingNames := ExistingNames(existing);
    if crawled.None? || crawled.value == [] {
      if crawled.Some? {
        NothingNewNoRows(existingNames, crawled.value);
      }
      return Csv([]);
    }
    var recs := crawled.value;
    var dict := CompanyByName(recs);
    var newNames := dict.Keys - existingNames;
    if newNames == {} {
      NothingNewNoRows(existingNames, recs);
      return Csv([]);
    }
    var rows := WriteRows(dict, SortedNames(newNames));
    out := Csv(rows);
  }

  /** Without a new name there is no row. */
  lemma NothingNewNoRows(existing: set<string>, recs: seq<Record>)
    requires recs == [] || NewNames(existing, recs) == {}
    ensures NewShipRows(existing, recs) == []
  {
  }

  /** Appending one name appends its row. */
  lemma RowsStep(dict: map<string, string>, names: seq<string>, i: nat)
    requires i < |names| && forall k :: 0 <= k < |names| ==> names[k] in dict
    ensures Rows(dict, names[..i + 1]) == Rows(dict, names[..i]) + [NewShip(dict[names[i]], names[i])]
  {
  }

  /** The writer loop: one row per name, in the given order. */
  method WriteRows(dict: map<string, string>, names: seq<string>) returns (rows: seq<NewShip>)
    requires forall i :: 0 <= i < |names| ==> names[i] in dict
    ensures rows == Rows(dict, names)
  {
    rows := [];
    var i := 0;
    while i < |names|
      invariant 0 <= i <= |names|
      invariant rows == Rows(dict, names[..i])
    {
      RowsStep(dict, names, i);
      rows := rows + [NewShip(dict[names[i]], names[i])];
      i := i + 1;
    }
    assert names[..|names|] == names;
  }

  /** Every row is a new name with the carrier the name map gives it. */
  lemma NewShipRowsAreNew(existing: set<string>, recs: seq<Record>)
    ensures forall k :: 0 <= k < |NewShipRows(existing, recs)| ==>
      var row := NewShipRows(existing, recs)[k];
      row.name !in existing && row.name in CompanyByName(recs) && row.company == CompanyByName(recs)[row.name]
  {
  }

  /** The rows are in strictly ascending name order, so no name is written twice. */
  lemma NewShipRowsAscending(existing: set<string>, recs: seq<Record>)
    ensures forall a, b :: 0 <= a < b < |NewShipRows(existing, recs)| ==>
      LexLess(NewShipRows(existing, recs)[a].name, NewShipRows(existing, recs)[b].name)
  {
  }

  /** No crawled name that is neither missing its carrier nor already
      listed is left out. */
  lemma NewShipRowsComplete(existing: set<string>, recs: seq<Record>, i: nat)
    requires i < |recs| && Named(recs, i) && recs[i][NAME] !in existing
    ensures exists k :: 0 <= k < |NewShipRows(existing, recs)| && NewShipRows(existing, recs)[k].name == recs[i][NAME]
  {
    var names := SortedNames(NewNames(existing, recs));
    var rows := NewShipRows(existing, recs);
    CompanyByNameKeys(recs, recs[i][NAME]);
    assert recs[i][NAME] in NewNames(existing, recs);
    assert recs[i][NAME] in names;
    var k :| 0 <= k < |names| && names[k] == recs[i][NAME];
    assert rows[k].name == names[k];
  }

  /** With no ship-info file every crawled name is new. */
  lemma MissingFileAllNew(recs: seq<Record>)
    ensures NewNames(ExistingNames(Missing), recs) == CompanyByName(recs).Keys
    ensures |NewShipRows(ExistingNames(Missing), recs)| == |CompanyByName(recs).Keys|
  {
  }
}
