/** Similarity search with a distance ceiling, and the fallback flag of an answer. */
module Retrieval {

  /** A cosine distance; the distance to a zero vector is not a number. */
  datatype Distance = Finite(value: real) | NotANumber

  datatype Hit = Hit(chunk: int, distance: Distance)

  /** ORDER BY in ascending order: the database puts NaN after every number. */
  predicate Before(a: Distance, b: Distance) {
    b == NotANumber || (a.Finite? && a.value <= b.value)
  }

  /** distance <= ceiling and distance > ceiling as Python compares them: both fail on NaN. */
  predicate Near(h: Hit, ceiling: real) { h.distance.Finite? && h.distance.value <= ceiling }
  predicate Far(h: Hit, ceiling: real) { h.distance.Finite? && h.distance.value > ceiling }

  /** The rows of ORDER BY distance LIMIT k over the eligible chunks, ties in any order. */
  ghost predicate TopK(rows: seq<Hit>, eligible: multiset<Hit>, k: nat) {
    && |rows| == (if k <= |eligible| then k else |eligible|)
    && multiset(rows) <= eligible
    && (forall i, j :: 0 <= i < j < |rows| ==> Before(rows[i].distance, rows[j].distance))
    && (forall h, i :: h in eligible - multiset(rows) && 0 <= i < |rows| ==> Before(rows[i].distance, h.distance))
  }

  function Relevant(rows: seq<Hit>, ceiling: real): (r: seq<Hit>)
    ensures forall h :: h in r <==> h in rows && Near(h, ceiling)
  {
    if rows == [] then []
    else
      var rest := Relevant(rows[1..], ceiling);
      assert forall h :: h in rows <==> h == rows[0] || h in rows[1..];
      if Near(rows[0], ceiling) then [rows[0]] + rest else rest
  }

  /** The filter keeps the order and every repetition, and keeps a row exactly when its distance is a number
      within the ceiling. */
  lemma {:induction false} RelevantAppend(a: seq<Hit>, b: seq<Hit>, ceiling: real)
    ensures Relevant(a + b, ceiling) == Relevant(a, ceiling) + Relevant(b, ceiling)
    ensures |a| == 1 ==>
              Relevant(a, ceiling) == if a[0].distance.Finite? && a[0].distance.value <= ceiling then a else []
  {
    if a == [] {
      assert a + b == b;
    } else {
      assert (a + b)[1..] == a[1..] + b;
      RelevantAppend(a[1..], b, ceiling);
      assert |a| == 1 ==> a == [a[0]] && Relevant(a[1..], ceiling) == [];
    }
  }

  /** The near rows in order, or all rows when none is near. */
  function SimilarChunks(rows: seq<Hit>, ceiling: real): seq<Hit> {
    var relevant := Relevant(rows, ceiling);
    if relevant != [] then relevant else rows
  }

  /** The flag raised for the client, from the packed chunks and the retrieved ones. */
  predicate IsFallback(included: seq<Hit>, chunks: seq<Hit>, ceiling: real) {
    included == [] || (chunks != [] && forall i :: 0 <= i < |chunks| ==> Far(chunks[i], ceiling))
  }

  ghost predicate SomeNear(eligible: multiset<Hit>, ceiling: real) {
    exists h :: h in eligible && Near(h, ceiling)
  }

  lemma RowsEligible(rows: seq<Hit>, eligible: multiset<Hit>, h: Hit)
    requires multiset(rows) <= eligible && h in rows
    ensures h in eligible
  {
    assert h in multiset(rows);
  }

  /** If any eligible chunk is near, the best row is. */
  lemma NearFirst(rows: seq<Hit>, eligible: multiset<Hit>, k: nat, ceiling: real)
    requires TopK(rows, eligible, k) && k >= 1 && SomeNear(eligible, ceiling)
    ensures rows != [] && Near(rows[0], ceiling)
  {
    var h :| h in eligible && Near(h, ceiling);
    assert |eligible| > 0 by {
      assert eligible == eligible - multiset{h} + multiset{h};
    }
    if h in rows {
      var i :| 0 <= i < |rows| && rows[i] == h;
      assert i == 0 || Before(rows[0].distance, rows[i].distance);
    } else {
      assert h in eligible - multiset(rows);
    }
  }

  /** A full scan agrees with the retrieved list, which never mixes near chunks with others: it holds only
      near ones when some eligible chunk is near, and only others when none is. */
  lemma RetrievalAgreesWithScan(rows: seq<Hit>, eligible: multiset<Hit>, k: nat, ceiling: real)
    requires TopK(rows, eligible, k) && k >= 1
    ensures var chunks := SimilarChunks(rows, ceiling);
            && (chunks == [] <==> eligible == multiset{})
            && (forall h :: h in chunks ==> h in eligible && (Near(h, ceiling) <==> SomeNear(eligible, ceiling)))
            && (forall h :: h in rows && Near(h, ceiling) ==> h in chunks)
            && chunks == if SomeNear(eligible, ceiling) then Relevant(rows, ceiling) else rows
  {
    var chunks := SimilarChunks(rows, ceiling);
    if SomeNear(eligible, ceiling) {
      NearFirst(rows, eligible, k, ceiling);
      assert rows[0] in Relevant(rows, ceiling);
    } else if Relevant(rows, ceiling) != [] {
      RowsEligible(rows, eligible, Relevant(rows, ceiling)[0]);
      assert false;
    }
    forall h | h in chunks ensures h in eligible && (Near(h, ceiling) <==> SomeNear(eligible, ceiling)) {
      RowsEligible(rows, eligible, h);
    }
    assert eligible == multiset{} <==> |eligible| == 0;
  }

  /** What the flag says, for all inputs: it is raised exactly when no chunk got into the prompt, or no eligible
      chunk is near and every retrieved distance is a number. */
  lemma FallbackFlag(rows: seq<Hit>, eligible: multiset<Hit>, k: nat, ceiling: real, included: seq<Hit>)
    requires TopK(rows, eligible, k) && forall h :: h in included ==> h in SimilarChunks(rows, ceiling)
    ensures IsFallback(included, SimilarChunks(rows, ceiling), ceiling) <==>
            || included == []
            || (!SomeNear(eligible, ceiling) && forall i :: 0 <= i < |rows| ==> rows[i].distance != NotANumber)
  {
    if included == [] {
      return;
    }
    var chunks := SimilarChunks(rows, ceiling);
    assert included[0] in chunks;
    assert k >= 1;
    RetrievalAgreesWithScan(rows, eligible, k, ceiling);
    if SomeNear(eligible, ceiling) {
      assert chunks[0] in chunks;
    } else {
      forall i | 0 <= i < |rows| ensures !Near(rows[i], ceiling) {
        RowsEligible(rows, eligible, rows[i]);
      }
    }
  }

  /** So the flag agrees with the full scan exactly when a near chunk exists or no retrieved distance is NaN. */
  lemma FallbackAgreesWithScan(rows: seq<Hit>, eligible: multiset<Hit>, k: nat, ceiling: real, included: seq<Hit>)
    requires TopK(rows, eligible, k) && k >= 1
    requires included != [] && forall h :: h in included ==> h in SimilarChunks(rows, ceiling)
    ensures (IsFallback(included, SimilarChunks(rows, ceiling), ceiling) <==> !SomeNear(eligible, ceiling)) <==>
            SomeNear(eligible, ceiling) || forall i :: 0 <= i < |rows| ==> rows[i].distance != NotANumber
  {
    FallbackFlag(rows, eligible, k, ceiling, included);
  }

  /** It can disagree: a single eligible chunk stored with a zero vector is retrieved, is not near, and
      raises no flag. */
  lemma ZeroVectorHidesTheFallback(ceiling: real)
    ensures var h := Hit(1, NotANumber);
            && TopK([h], multiset{h}, 5)
            && SimilarChunks([h], ceiling) == [h]
            && !SomeNear(multiset{h}, ceiling)
            && !IsFallback([h], SimilarChunks([h], ceiling), ceiling)
  {
    var h := Hit(1, NotANumber);
    var rows := [h];
    assert rows[1..] == [] && Relevant(rows, ceiling) == [];
    assert multiset(rows) == multiset{h};
    assert rows[0] == h && !Far(rows[0], ceiling);
  }
}
