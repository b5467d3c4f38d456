/** The crawler-side helpers of the submission pipeline (submission/utils.py):
    get_work_plan_data, which crawls DEPARTED vessels and drops repeated
    (선명, 모선항차) pairs, and the ship-identity key used to attach tonnage
    and length from the ship-info table. */
module SubmissionUtils {
  import opened Seqs
  import opened Text
  import opened ScheduleRows

  /** The only status this crawler keeps. */
  const DEPARTED_ONLY: set<string> := {"DEPARTED"}

  // ---------------------------------------------------------------------------
  // drop_duplicates(subset=..., keep='first')

  /** Element i is the first with its key. */
  predicate IsFirst<T, K(==)>(s: seq<T>, i: nat, key: T -> K)
    requires i < |s|
  {
    forall j :: 0 <= j < i ==> key(s[j]) != key(s[i])
  }

  /** The elements that are the first with their key, in their order. */
  function DropDuplicates<T, K(==)>(s: seq<T>, key: T -> K): seq<T>
  {
    if s == [] then []
    else DropDuplicates(s[..|s| - 1], key) + (if IsFirst(s, |s| - 1, key) then [s[|s| - 1]] else [])
  }

  /** An element is first in a prefix exactly when it is first in the whole. */
  lemma IsFirstPrefix<T, K>(s: seq<T>, n: nat, i: nat, key: T -> K)
    requires i < n <= |s|
    ensures IsFirst(s[..n], i, key) <==> IsFirst(s, i, key)
  {
    assert forall j :: 0 <= j <= i ==> s[..n][j] == s[j];
  }

  /** The dedupe adds the last element exactly when it is the first with
      its key. */
  lemma DropDuplicatesLast<T, K>(s: seq<T>, key: T -> K)
    requires s != []
    ensures DropDuplicates(s, key) ==
      DropDuplicates(s[..|s| - 1], key) + (if IsFirst(s, |s| - 1, key) then [s[|s| - 1]] else [])
  {
  }

  /** Only first occurrences are kept. */
  lemma {:induction false} DropDuplicatesFirstOnly<T, K>(s: seq<T>, key: T -> K, x: T)
    requires x in DropDuplicates(s, key)
    ensures exists i :: 0 <= i < |s| && s[i] == x && IsFirst(s, i, key)
    decreases |s|
  {
    var n := |s| - 1;
    var front := s[..n];
    DropDuplicatesLast(s, key);
    if x in DropDuplicates(front, key) {
      DropDuplicatesFirstOnly(front, key, x);
      var i :| 0 <= i < |front| && front[i] == x && IsFirst(front, i, key);
      IsFirstPrefix(s, n, i, key);
      assert s[i] == x && IsFirst(s, i, key);
    } else {
      assert x == s[n] && IsFirst(s, n, key);
    }
  }

  /** Every first occurrence is kept. */
  lemma {:induction false} DropDuplicatesKeepsFirst<T, K>(s: seq<T>, key: T -> K, i: nat)
    requires i < |s| && IsFirst(s, i, key)
    ensures s[i] in DropDuplicates(s, key)
    decreases |s|
  {
    var n := |s| - 1;
    DropDuplicatesLast(s, key);
    if i < n {
      IsFirstPrefix(s, n, i, key);
      DropDuplicatesKeepsFirst(s[..n], key, i);
      assert s[..n][i] == s[i];
    }
  }

  /** No key is kept twice. */
  lemma {:induction false} DropDuplicatesDistinct<T, K>(s: seq<T>, key: T -> K)
    ensures forall a, b :: 0 <= a < b < |DropDuplicates(s, key)| ==>
      key(DropDuplicates(s, key)[a]) != key(DropDuplicates(s, key)[b])
    decreases |s|
  {
    if s != [] {
      var n := |s| - 1;
      var front := s[..n];
      var d := DropDuplicates(front, key);
      DropDuplicatesDistinct(front, key);
      DropDuplicatesLast(s, key);
      var all := DropDuplicates(s, key);
      forall a, b | 0 <= a < b < |all|
        ensures key(all[a]) != key(all[b])
      {
        if b == |d| {
          assert all[a] == d[a] && d[a] in d;
          DropDuplicatesFirstOnly(front, key, d[a]);
          var i :| 0 <= i < |front| && front[i] == d[a] && IsFirst(front, i, key);
          assert IsFirst(s, n, key) && all[b] == s[n] && s[i] == front[i];
          assert key(s[i]) != key(s[n]);
        } else {
          assert all[a] == d[a] && all[b] == d[b];
        }
      }
    }
  }

  /** Every element has a first occurrence of its key at or before it. */
  lemma {:induction false} FirstOccurrence<T, K>(s: seq<T>, i: nat, key: T -> K) returns (j: nat)
    requires i < |s|
    ensures j <= i && key(s[j]) == key(s[i]) && IsFirst(s, j, key)
    decreases i
  {
    if IsFirst(s, i, key) {
      j := i;
    } else {
      var k :| 0 <= k < i && key(s[k]) == key(s[i]);
      j := FirstOccurrence(s, k, key);
    }
  }

  /** No key of the input is lost. */
  lemma DropDuplicatesCovers<T, K>(s: seq<T>, key: T -> K, i: nat)
    requires i < |s|
    ensures exists m :: 0 <= m < |DropDuplicates(s, key)| && key(DropDuplicates(s, key)[m]) == key(s[i])
  {
    var j := FirstOccurrence(s, i, key);
    DropDuplicatesKeepsFirst(s, key, j);
    var m :| 0 <= m < |DropDuplicates(s, key)| && DropDuplicates(s, key)[m] == s[j];
  }

  /** A sequence whose keys are already distinct is left as it is, so the
      dedupe is idempotent. */
  lemma {:induction false} DropDuplicatesOfDistinct<T, K>(s: seq<T>, key: T -> K)
    requires forall a, b :: 0 <= a < b < |s| ==> key(s[a]) != key(s[b])
    ensures DropDuplicates(s, key) == s
    decreases |s|
  {
    if s != [] {
      var n := |s| - 1;
      var front := s[..n];
      forall a, b | 0 <= a < b < |front|
        ensures key(front[a]) != key(front[b])
      {
        assert front[a] == s[a] && front[b] == s[b];
      }
      DropDuplicatesOfDistinct(front, key);
      assert IsFirst(s, n, key);
      assert front + [s[n]] == s;
    }
  }

  lemma DropDuplicatesIdempotent<T, K>(s: seq<T>, key: T -> K)
    ensures DropDuplicates(DropDuplicates(s, key), key) == DropDuplicates(s, key)
  {
    DropDuplicatesDistinct(s, key);
    DropDuplicatesOfDistinct(DropDuplicates(s, key), key);
  }

  /** `row.get(key)` with '' for a missing column. */
  function Get(rec: Record, key: string): string
  {
    if key in rec then rec[key] else ""
  }

  /** The (선명, 모선항차) pair the work plan is deduplicated on. */
  function VesselVoyage(rec: Record): (string, string)
  {
    (Get(rec, NAME), Get(rec, VOYAGE))
  }

  /** get_work_plan_data of the submission pipeline: the departed crawl;
      the JSON path returns the wrapper as it is, the list path drops
      repeated (선명, 모선항차) pairs keeping the first; an empty crawl is an
      error on both paths. */
  method GetWorkPlanData(initial: Option<InitialPage>, token: string, searched: Option<Page>,
                         format: string, start: string, end: string, now: string)
    returns (r: Result<WorkPlan, string>)
    ensures r.Err? <==> PageSchedule(FetchedPage(initial, searched, start, end), DEPARTED_ONLY) == []
    ensures r.Ok? && format == "json" ==>
      r.value.JsonPlan? && r.value.wrapper.Json?
      && r.value.wrapper.scheduleData == PageSchedule(FetchedPage(initial, searched, start, end), DEPARTED_ONLY)
    ensures r.Ok? && format != "json" ==>
      r.value == Frame(DropDuplicates(PageSchedule(FetchedPage(initial, searched, start, end), DEPARTED_ONLY), VesselVoyage))
  {
    r := ScheduleRows.GetWorkPlanData(initial, token, searched, DEPARTED_ONLY, format, start, end, now);
    if r.Ok? && r.value.Frame? {
      r := Ok(Frame(DropDuplicates(r.value.frame, VesselVoyage)));
    }
  }

  /** The list path never returns two rows for one vessel voyage, and it
      keeps the set of vessel voyages the crawl found. */
  lemma WorkPlanUnique(records: seq<Record>)
    ensures forall a, b :: 0 <= a < b < |DropDuplicates(records, VesselVoyage)| ==>
      VesselVoyage(DropDuplicates(records, VesselVoyage)[a]) != VesselVoyage(DropDuplicates(records, VesselVoyage)[b])
    ensures (set r | r in DropDuplicates(records, VesselVoyage) :: VesselVoyage(r)) ==
            (set r | r in records :: VesselVoyage(r))
  {
    DropDuplicatesDistinct(records, VesselVoyage);
    var d := DropDuplicates(records, VesselVoyage);
    forall r | r in d
      ensures r in records
    {
      DropDuplicatesFirstOnly(records, VesselVoyage, r);
    }
    forall r | r in records
      ensures VesselVoyage(r) in (set x | x in d :: VesselVoyage(x))
    {
      var i :| 0 <= i < |records| && records[i] == r;
      DropDuplicatesCovers(records, VesselVoyage, i);
      var m :| 0 <= m < |d| && (VesselVoyage)(d[m]) == (VesselVoyage)(records[i]);
      assert d[m] in d;
    }
  }

  // ---------------------------------------------------------------------------
  // merge_key in preprocess_for_prediction

  /** 선사 + '_' + 선명 with every whitespace character removed. */
  function MergeKey(company: string, name: string): string
  {
    company + "_" + RemoveSpaces(name)
  }

  /** In a key whose company has no '_', the first '_' is the separator. */
  lemma SeparatorAt(company: string, rest: string)
    requires '_' !in company
    ensures (company + "_" + rest)[|company|] == '_'
    ensures forall i :: 0 <= i < |company| ==> (company + "_" + rest)[i] != '_'
  {
    forall i | 0 <= i < |company|
      ensures (company + "_" + rest)[i] != '_'
    {
      assert (company + "_" + rest)[i] == company[i] && company[i] in company;
    }
  }

  /** For companies without '_', the key identifies the company and the
      name up to whitespace, in both directions. */
  lemma MergeKeyIdentifies(c1: string, n1: string, c2: string, n2: string)
    requires '_' !in c1 && '_' !in c2
    ensures MergeKey(c1, n1) == MergeKey(c2, n2) <==> c1 == c2 && RemoveSpaces(n1) == RemoveSpaces(n2)
  {
    var k1 := MergeKey(c1, n1);
    var k2 := MergeKey(c2, n2);
    if k1 == k2 {
      SeparatorAt(c1, RemoveSpaces(n1));
      SeparatorAt(c2, RemoveSpaces(n2));
      assert |c1| == |c2|;
      assert c1 == k1[..|c1|] && c2 == k2[..|c2|];
      assert RemoveSpaces(n1) == k1[|c1| + 1..] && RemoveSpaces(n2) == k2[|c2| + 1..];
    }
  }

  /** Spacing in the name never changes the key: a name cleaned by the
      crawler keys the same as the raw one. */
  lemma MergeKeyIgnoresSpacing(company: string, name: string)
    ensures MergeKey(company, CleanText(name)) == MergeKey(company, name)
  {
    CleanTextKeepsContent(name);
  }

  /** Without the '_' condition two different ships can share a key. */
  lemma MergeKeyCollision()
    ensures MergeKey("A_B", "C") == MergeKey("A", "B_C")
  {
    assert RemoveSpaces("C") == "C" by {
      assert RemoveSpaces("C"[1..]) == [];
    }
    assert RemoveSpaces("B_C") == "B_C" by {
      assert "B_C"[1..] == "_C" && "_C"[1..] == "C" && "C"[1..] == [];
    }
  }

  /** A row of ship_info.csv: company, name, gross tonnage and length. */
  datatype ShipInfo = ShipInfo(company: string, name: string, tonnage: string, loa: string)

  function InfoKey(s: ShipInfo): string
  {
    MergeKey(s.company, s.name)
  }

  function RowKey(rec: Record): string
  {
    MergeKey(Get(rec, CARRIER), Get(rec, NAME))
  }

  /** The ship-info rows carrying a key, in table order. */
  function Matches(infos: seq<ShipInfo>, key: string): seq<ShipInfo>
  {
    if infos == [] then []
    else
      var last := infos[|infos| - 1];
      Matches(infos[..|infos| - 1], key) + (if InfoKey(last) == key then [last] else [])
  }

  /** The first ship-info row carrying a key. */
  function FirstMatch(infos: seq<ShipInfo>, key: string): Option<ShipInfo>
  {
    if infos == [] then None
    else
      var f := FirstMatch(infos[..|infos| - 1], key);
      if f.Some? then f
      else if InfoKey(infos[|infos| - 1]) == key then Some(infos[|infos| - 1])
      else None
  }

  /** pd.merge(..., how='left'): each crawled row once per matching
      ship-info row, or once with nothing when none matches. */
  function Joined(rec: Record, infos: seq<ShipInfo>): seq<(Record, Option<ShipInfo>)>
  {
    var ms := Matches(infos, RowKey(rec));
    if ms == [] then [(rec, None)] else seq(|ms|, k requires 0 <= k < |ms| => (rec, Some(ms[k])))
  }

  function LeftMerge(rows: seq<Record>, infos: seq<ShipInfo>): seq<(Record, Option<ShipInfo>)>
  {
    if rows == [] then []
    else LeftMerge(rows[..|rows| - 1], infos) + Joined(rows[|rows| - 1], infos)
  }

  /** There is no first match exactly when no row carries the key. */
  lemma {:induction false} FirstMatchNone(infos: seq<ShipInfo>, key: string)
    ensures FirstMatch(infos, key).None? <==> forall i :: 0 <= i < |infos| ==> InfoKey(infos[i]) != key
    decreases |infos|
  {
    if infos != [] {
      var n := |infos| - 1;
      FirstMatchNone(infos[..n], key);
      assert forall i :: 0 <= i < n ==> infos[..n][i] == infos[i];
    }
  }

  /** The last ship-info row survives the dedupe exactly when no earlier row
      has its key. */
  lemma LastIsFirst(infos: seq<ShipInfo>)
    requires infos != []
    ensures IsFirst(infos, |infos| - 1, InfoKey) <==>
      FirstMatch(infos[..|infos| - 1], InfoKey(infos[|infos| - 1])).None?
  {
    var n := |infos| - 1;
    FirstMatchNone(infos[..n], InfoKey(infos[n]));
    assert forall i :: 0 <= i < n ==> infos[..n][i] == infos[i];
  }

  /** After the dedupe by key, a key matches at most one ship-info row: the
      first one of the original table. */
  lemma {:induction false} MatchesAfterDedupe(infos: seq<ShipInfo>, key: string)
    ensures Matches(DropDuplicates(infos, InfoKey), key) ==
      if FirstMatch(infos, key).Some? then [FirstMatch(infos, key).value] else []
    decreases |infos|
  {
    if infos != [] {
      var n := |infos| - 1;
      var front := infos[..n];
      var last := infos[n];
      MatchesAfterDedupe(front, key);
      DropDuplicatesLast(infos, InfoKey);
      var tail := if IsFirst(infos, n, InfoKey) then [last] else [];
      MatchesAppend(DropDuplicates(front, InfoKey), tail, key);
      LastIsFirst(infos);
      assert [last][..0] == [];
      assert Matches(tail, key) == (if tail != [] && InfoKey(last) == key then [last] else []);
    }
  }

  lemma {:induction false} MatchesAppend(a: seq<ShipInfo>, b: seq<ShipInfo>, key: string)
    ensures Matches(a + b, key) == Matches(a, key) + Matches(b, key)
    decreases |b|
  {
    if b != [] {
      var b' := b[..|b| - 1];
      assert (a + b)[..|a + b| - 1] == a + b';
      MatchesAppend(a, b', key);
    } else {
      assert a + b == a;
    }
  }

  /** A row with at most one matching ship-info row is joined once. */
  lemma JoinedOnce(rec: Record, infos: seq<ShipInfo>, m: Option<ShipInfo>)
    requires Matches(infos, RowKey(rec)) == (if m.Some? then [m.value] else [])
    ensures Joined(rec, infos) == [(rec, m)]
  {
  }

  /** The merge of a prefix is a prefix of the merge. */
  lemma LeftMergeLast(rows: seq<Record>, infos: seq<ShipInfo>)
    requires rows != []
    ensures LeftMerge(rows, infos) == LeftMerge(rows[..|rows| - 1], infos) + Joined(rows[|rows| - 1], infos)
  {
  }

  /** When every row joins exactly once, the merge is one output row per
      input row, in order. */
  lemma {:induction false} LeftMergeOneEach(rows: seq<Record>, infos: seq<ShipInfo>)
    requires forall i :: 0 <= i < |rows| ==> |Joined(rows[i], infos)| == 1
    ensures |LeftMerge(rows, infos)| == |rows|
    ensures forall i :: 0 <= i < |rows| ==> LeftMerge(rows, infos)[i] == Joined(rows[i], infos)[0]
    decreases |rows|
  {
    if rows != [] {
      var n := |rows| - 1;
      var front := rows[..n];
      assert forall i :: 0 <= i < n ==> front[i] == rows[i];
      LeftMergeOneEach(front, infos);
      LeftMergeLast(rows, infos);
      var last := Joined(rows[n], infos);
      assert LeftMerge(rows, infos) == LeftMerge(front, infos) + last;
      forall i | 0 <= i < |rows|
        ensures LeftMerge(rows, infos)[i] == Joined(rows[i], infos)[0]
      {
        if i == n {
          assert LeftMerge(rows, infos)[i] == last[0];
        } else {
          assert LeftMerge(rows, infos)[i] == LeftMerge(front, infos)[i];
        }
      }
    }
  }

  /** With the ship-info table deduplicated by key, the left merge keeps the
      crawled rows one for one, in order, each with the first ship-info row
      of its key, or with nothing. */
  lemma MergeAligned(rows: seq<Record>, infos: seq<ShipInfo>)
    ensures |LeftMerge(rows, DropDuplicates(infos, InfoKey))| == |rows|
    ensures forall i :: 0 <= i < |rows| ==>
      LeftMerge(rows, DropDuplicates(infos, InfoKey))[i] == (rows[i], FirstMatch(infos, RowKey(rows[i])))
  {
    var d := DropDuplicates(infos, InfoKey);
    forall i | 0 <= i < |rows|
      ensures Joined(rows[i], d) == [(rows[i], FirstMatch(infos, RowKey(rows[i])))]
    {
      MatchesAfterDedupe(infos, RowKey(rows[i]));
      JoinedOnce(rows[i], d, FirstMatch(infos, RowKey(rows[i])));
    }
    LeftMergeOneEach(rows, d);
  }
}
