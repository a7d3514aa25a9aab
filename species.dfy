/**
 * The species indexer: per-atom chemical labels of the first frame, passed
 * through the optional rename table, grouped into a sorted list of unique
 * species and, per species, the ascending indices of its atoms.
 */
module Species {
  import opened Wrappers

  /** The optional `atom_type_map`. */
  type RenameTable = Option<map<string, string>>

  // ---------------------------------------------------------------------
  // Renaming
  // ---------------------------------------------------------------------

  /** `atom_type_map.get(sym, sym)`, or `sym` itself when there is no table. */
  function Rename(table: RenameTable, sym: string): string
  {
    match table
    case None => sym
    case Some(m) => if sym in m then m[sym] else sym
  }

  /** `_get_chemical_symbols_mapped`: the labels of one frame, renamed. */
  function MappedSymbols(table: RenameTable, labels: seq<string>): (r: seq<string>)
    ensures |r| == |labels|
    ensures table.None? ==> r == labels
    ensures forall i :: 0 <= i < |labels| && table.Some? && labels[i] in table.value ==>
      r[i] == table.value[labels[i]]
    ensures forall i :: 0 <= i < |labels| && (table.None? || labels[i] !in table.value) ==>
      r[i] == labels[i]
  {
    match table
    case None => labels
    case Some(m) => seq(|labels|, i requires 0 <= i < |labels| => Rename(table, labels[i]))
  }

  // ---------------------------------------------------------------------
  // Python's ordering of strings: lexicographic by code point
  // ---------------------------------------------------------------------

  predicate LexLess(a: string, b: string)
  {
    if |a| == 0 then |b| > 0
    else if |b| == 0 then false
    else if a[0] < b[0] then true
    else a[0] == b[0] && LexLess(a[1..], b[1..])
  }

  lemma {:induction false} LexIrreflexive(a: string)
    ensures !LexLess(a, a)
  {
    if |a| > 0 { LexIrreflexive(a[1..]); }
  }

  lemma {:induction false} LexTransitive(a: string, b: string, c: string)
    requires LexLess(a, b) && LexLess(b, c)
    ensures LexLess(a, c)
  {
    if |a| > 0 && |b| > 0 && |c| > 0 && a[0] == b[0] == c[0] {
      LexTransitive(a[1..], b[1..], c[1..]);
    }
  }

  lemma {:induction false} LexTotal(a: string, b: string)
    ensures a == b || LexLess(a, b) || LexLess(b, a)
  {
    if |a| > 0 && |b| > 0 && a[0] == b[0] {
      LexTotal(a[1..], b[1..]);
      if a[1..] == b[1..] {
        assert a == [a[0]] + a[1..] && b == [b[0]] + b[1..];
      }
    }
  }

  /** Strictly ascending, hence free of duplicates. */
  predicate StrictlySorted(s: seq<string>)
  {
    forall i, j :: 0 <= i < j < |s| ==> LexLess(s[i], s[j])
  }

  // ---------------------------------------------------------------------
  // sorted(set(symbols))
  // ---------------------------------------------------------------------

  /** Insert `x` at its place in a strictly sorted list, unless already there. */
  function Insert(s: seq<string>, x: string): (r: seq<string>)
    requires StrictlySorted(s)
    ensures StrictlySorted(r)
    ensures forall y :: y in r <==> y in s || y == x
  {
    if |s| == 0 then [x]
    else if x == s[0] then s
    else if LexLess(x, s[0]) then
      assert forall j :: 0 < j < |s| ==> LexLess(x, s[j]) by {
        forall j | 0 < j < |s| ensures LexLess(x, s[j]) { LexTransitive(x, s[0], s[j]); }
      }
      [x] + s
    else
      LexTotal(x, s[0]);
      var rest := Insert(s[1..], x);
      assert forall j :: 0 <= j < |rest| ==> LexLess(s[0], rest[j]) by {
        forall j | 0 <= j < |rest| ensures LexLess(s[0], rest[j]) {
          assert rest[j] in s[1..] || rest[j] == x;
        }
      }
      [s[0]] + rest
  }

  /** `sorted(set(symbols))`: each label once, in Python's string order. */
  function UniqueSorted(symbols: seq<string>): (r: seq<string>)
    ensures StrictlySorted(r)
    ensures forall y :: y in r <==> y in symbols
  {
    if |symbols| == 0 then []
    else
      var prefix := symbols[..|symbols| - 1];
      var r := Insert(UniqueSorted(prefix), symbols[|symbols| - 1]);
      assert forall y :: y in symbols <==> y in prefix || y == symbols[|symbols| - 1] by {
        assert symbols == prefix + [symbols[|symbols| - 1]];
      }
      r
  }

  // ---------------------------------------------------------------------
  // The per-species index lists
  // ---------------------------------------------------------------------

  /** `[i for i, sym in enumerate(symbols) if sym == t]`. */
  function IndicesOf(symbols: seq<string>, t: string): (r: seq<nat>)
    ensures forall j :: 0 <= j < |r| ==> r[j] < |symbols| && symbols[r[j]] == t
    ensures forall i :: 0 <= i < |symbols| && symbols[i] == t ==> i in r
    ensures forall j, k :: 0 <= j < k < |r| ==> r[j] < r[k]
  {
    if |symbols| == 0 then []
    else
      var n := |symbols| - 1;
      var prefix := IndicesOf(symbols[..n], t);
      if symbols[n] == t then prefix + [n] else prefix
  }

  /** `indices_map`: every species of the frame, with its atom indices. */
  function IndexMap(symbols: seq<string>): (m: map<string, seq<nat>>)
    ensures forall t :: t in m <==> t in symbols
  {
    map t | t in UniqueSorted(symbols) :: IndicesOf(symbols, t)
  }

  /**
   * The lists partition the atoms: atom `i` is listed under its own label and
   * under no other species.
   */
  lemma IndexMapPartition(symbols: seq<string>, i: nat, t: string)
    requires i < |symbols| && t in IndexMap(symbols)
    ensures i in IndexMap(symbols)[t] <==> symbols[i] == t
  {
    var r := IndexMap(symbols)[t];
    if i in r {
      var j :| 0 <= j < |r| && r[j] == i;
    }
  }

  /** No species is listed with an empty index list. */
  lemma IndexListsNonEmpty(symbols: seq<string>, t: string)
    requires t in IndexMap(symbols)
    ensures |IndexMap(symbols)[t]| > 0
  {
    var i :| 0 <= i < |symbols| && symbols[i] == t;
    assert i in IndexMap(symbols)[t];
  }

  /** The lists together hold exactly `|symbols|` indices, so none is repeated. */
  lemma {:induction false} IndexCountsAddUp(symbols: seq<string>, species: seq<string>)
    requires forall a, b :: 0 <= a < b < |species| ==> species[a] != species[b]
    ensures TotalListed(symbols, species) == CountIn(symbols, species)
    decreases |symbols|
  {
    if |symbols| > 0 {
      var n := |symbols| - 1;
      IndexCountsAddUp(symbols[..n], species);
      ListedStep(symbols, species);
    } else {
      NothingListed(symbols, species);
    }
  }

  lemma {:induction false} NothingListed(symbols: seq<string>, species: seq<string>)
    requires |symbols| == 0
    ensures TotalListed(symbols, species) == 0
  {
    if |species| > 0 { NothingListed(symbols, species[1..]); }
  }

  /** How many atoms carry a label from `species`. */
  function CountIn(symbols: seq<string>, species: seq<string>): nat
  {
    if |symbols| == 0 then 0
    else CountIn(symbols[..|symbols| - 1], species) + (if symbols[|symbols| - 1] in species then 1 else 0)
  }

  /** The total length of the index lists of `species`. */
  function TotalListed(symbols: seq<string>, species: seq<string>): nat
  {
    if |species| == 0 then 0
    else |IndicesOf(symbols, species[0])| + TotalListed(symbols, species[1..])
  }

  lemma {:induction false} ListedStep(symbols: seq<string>, species: seq<string>)
    requires |symbols| > 0
    requires forall a, b :: 0 <= a < b < |species| ==> species[a] != species[b]
    ensures TotalListed(symbols, species)
      == TotalListed(symbols[..|symbols| - 1], species) + (if symbols[|symbols| - 1] in species then 1 else 0)
  {
    if |species| > 0 {
      ListedStep(symbols, species[1..]);
      var last := symbols[|symbols| - 1];
      if last == species[0] {
        assert last !in species[1..] by {
          forall b | 0 <= b < |species[1..]| ensures species[1..][b] != last {
            assert species[1..][b] == species[b + 1];
          }
        }
      }
    }
  }

  /** Summed over all species, the lists hold every atom exactly once. */
  lemma EveryAtomListedOnce(symbols: seq<string>)
    ensures TotalListed(symbols, UniqueSorted(symbols)) == |symbols|
  {
    var species := UniqueSorted(symbols);
    forall a, b | 0 <= a < b < |species| ensures species[a] != species[b] {
      LexIrreflexive(species[a]);
    }
    IndexCountsAddUp(symbols, species);
    AllCounted(symbols, species);
  }

  lemma {:induction false} AllCounted(symbols: seq<string>, species: seq<string>)
    requires forall y :: y in symbols ==> y in species
    ensures CountIn(symbols, species) == |symbols|
  {
    if |symbols| > 0 {
      var n := |symbols| - 1;
      assert symbols[n] in symbols;
      forall y | y in symbols[..n] ensures y in species { assert y in symbols; }
      AllCounted(symbols[..n], species);
    }
  }
}
