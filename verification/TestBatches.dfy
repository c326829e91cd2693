/** Splitting the selected test files into command lines (`batchTestFiles`,
    tools/affected-validation.js). */
module TestBatches {
  import opened Basics

  function Characters(batch: seq<string>): (total: nat)
    ensures batch != [] ==> total >= 1
  {
    if batch == [] then 0 else |batch[0]| + 1 + Characters(batch[1..])
  }

  /** The file names of a batch, each with a space behind it. */
  function CommandText(batch: seq<string>): string {
    if batch == [] then "" else batch[0] + " " + CommandText(batch[1..])
  }

  lemma {:induction false} CharactersAreText(batch: seq<string>)
    ensures Characters(batch) == |CommandText(batch)|
  {
    if batch != [] { CharactersAreText(batch[1..]); }
  }

  /** A batch of one file is always allowed; larger ones obey both limits. */
  ghost predicate Fits(batch: seq<string>, maxFiles: int, maxCharacters: int) {
    batch != [] && (|batch| >= 2 ==> |batch| <= maxFiles && Characters(batch) <= maxCharacters)
  }

  ghost predicate IsSplit(batches: seq<seq<string>>, files: seq<string>, maxFiles: int, maxCharacters: int) {
    Concat(batches) == files && forall b <- batches :: Fits(b, maxFiles, maxCharacters)
  }

  ghost predicate Overflows(batch: seq<string>, next: seq<string>, maxFiles: int, maxCharacters: int) {
    next != [] && !Fits(batch + [next[0]], maxFiles, maxCharacters)
  }

  /** No batch could have taken the first file of the next one. */
  ghost predicate Full(batches: seq<seq<string>>, maxFiles: int, maxCharacters: int) {
    forall k :: 1 <= k < |batches| ==> Overflows(batches[k - 1], batches[k], maxFiles, maxCharacters)
  }

  lemma {:induction false} CharactersSplit(a: seq<string>, b: seq<string>)
    ensures Characters(a + b) == Characters(a) + Characters(b)
  {
    if a == [] {
      assert a + b == b;
    } else {
      assert (a + b)[1..] == a[1..] + b;
      CharactersSplit(a[1..], b);
    }
  }

  lemma {:induction false} ConcatSnoc(batches: seq<seq<string>>, last: seq<string>)
    ensures Concat(batches + [last]) == Concat(batches) + last
  {
    if batches == [] {
      assert batches + [last] == [last];
      assert Concat([last]) == last + Concat([]);
    } else {
      assert (batches + [last])[1..] == batches[1..] + [last];
      ConcatSnoc(batches[1..], last);
    }
  }

  /** A contiguous part of a batch that fits, fits. */
  lemma PartFits(batch: seq<string>, from: nat, to: nat, maxFiles: int, maxCharacters: int)
    requires Fits(batch, maxFiles, maxCharacters) && from < to <= |batch|
    ensures Fits(batch[from..to], maxFiles, maxCharacters)
  {
    assert batch == batch[..from] + (batch[from..to] + batch[to..]);
    CharactersSplit(batch[..from], batch[from..to] + batch[to..]);
    CharactersSplit(batch[from..to], batch[to..]);
  }

  lemma SecondStarts(full: seq<seq<string>>)
    requires |full| >= 2 && full[1] != []
    ensures |Concat(full)| > |full[0]| && Concat(full)[..|full[0]| + 1] == full[0] + [full[1][0]]
  {
    assert Concat(full) == full[0] + Concat(full[1..]);
    assert full[1..][0] == full[1];
    assert Concat(full[1..]) == full[1] + Concat(full[1..][1..]);
  }

  /** The first batch of any split ends no later than the first full batch does. */
  lemma FirstEndsFirst(full: seq<seq<string>>, o: seq<string>, rest: seq<string>, before: seq<string>, maxFiles: int, maxCharacters: int)
    requires full != [] && full[0] != [] && Full(full, maxFiles, maxCharacters) && Fits(o, maxFiles, maxCharacters)
    requires o + rest == before + Concat(full)
    ensures |o| <= |before| + |full[0]|
  {
    assert Concat(full) == full[0] + Concat(full[1..]);
    if |full| >= 2 && |o| > |before| + |full[0]| {
      assert Overflows(full[1 - 1], full[1], maxFiles, maxCharacters);
      SecondStarts(full);
      var from, to := |before|, |before| + |full[0]| + 1;
      assert o[from..to] == (o + rest)[from..to];
      assert (before + Concat(full))[from..to] == Concat(full)[..|full[0]| + 1];
      PartFits(o, from, to, maxFiles, maxCharacters);
    }
    assert |full| == 1 ==> Concat(full[1..]) == [];
    assert |o + rest| >= |o|;
  }

  /** Full batches stay ahead of any other split that started earlier or at the same file. */
  lemma {:induction false} StaysAhead(full: seq<seq<string>>, other: seq<seq<string>>, before: seq<string>, maxFiles: int, maxCharacters: int)
    requires Full(full, maxFiles, maxCharacters) && forall b <- full :: b != []
    requires forall b <- other :: Fits(b, maxFiles, maxCharacters)
    requires Concat(other) == before + Concat(full)
    ensures |full| <= |other|
  {
    if full != [] {
      assert full[0] in full && Concat(full) == full[0] + Concat(full[1..]);
      assert other != [] && other[0] in other;
      var o, rest := other[0], Concat(other[1..]);
      FirstEndsFirst(full, o, rest, before, maxFiles, maxCharacters);
      var before' := (before + full[0])[|o|..];
      assert rest == (o + rest)[|o|..];
      assert o + rest == (before + full[0]) + Concat(full[1..]);
      assert rest == before' + Concat(full[1..]);
      assert forall k :: 1 <= k < |full[1..]| ==> full[1..][k] == full[k + 1] && full[1..][k - 1] == full[k];
      assert forall b <- full[1..] :: b in full;
      assert forall b <- other[1..] :: b in other;
      StaysAhead(full[1..], other[1..], before', maxFiles, maxCharacters);
    }
  }

  /** A split into full batches uses the fewest batches of all order-preserving splits. */
  lemma FullIsOptimal(full: seq<seq<string>>, other: seq<seq<string>>, files: seq<string>, maxFiles: int, maxCharacters: int)
    requires IsSplit(full, files, maxFiles, maxCharacters) && Full(full, maxFiles, maxCharacters)
    requires IsSplit(other, files, maxFiles, maxCharacters)
    ensures |full| <= |other|
  {
    assert Concat(other) == [] + Concat(full);
    StaysAhead(full, other, [], maxFiles, maxCharacters);
  }

  /** `option || fallback` on a numeric option: absent and zero take the fallback. */
  function OrDefault(option: Option<int>, fallback: int): int {
    if option.None? || option.value == 0 then fallback else option.value
  }

  ghost predicate FilledSoFar(batches: seq<seq<string>>, current: seq<string>, maxFiles: int, maxCharacters: int) {
    && (forall b <- batches :: Fits(b, maxFiles, maxCharacters))
    && (current != [] ==> Fits(current, maxFiles, maxCharacters) && Full(batches + [current], maxFiles, maxCharacters))
    && (current == [] ==> batches == [])
  }

  /** One file, or no more than the limits allow: 40 files and 12000 characters of command line
      unless other limits are given, where zero is no limit given. */
  predicate WithinLimits(batch: seq<string>, maxFiles: Option<int>, maxCharacters: Option<int>) {
    && batch != []
    && (|batch| > 1 ==>
          && |batch| <= (if maxFiles == None || maxFiles == Some(0) then 40 else maxFiles.value)
          && |CommandText(batch)| <= (if maxCharacters == None || maxCharacters == Some(0) then 12000 else maxCharacters.value))
  }

  lemma FitsWithinLimits(batch: seq<string>, maxFiles: Option<int>, maxCharacters: Option<int>)
    ensures Fits(batch, OrDefault(maxFiles, 40), OrDefault(maxCharacters, 12000)) <==> WithinLimits(batch, maxFiles, maxCharacters)
  {
    CharactersAreText(batch);
  }

  /** The greedy loop: an order-preserving split that fits, with the fewest batches. */
  method BatchTestFiles(files: seq<string>, maxFilesOption: Option<int>, maxCharactersOption: Option<int>)
    returns (batches: seq<seq<string>>)
    ensures
      var maxFiles, maxCharacters := OrDefault(maxFilesOption, 40), OrDefault(maxCharactersOption, 12000);
      && IsSplit(batches, files, maxFiles, maxCharacters)
      && forall other :: IsSplit(other, files, maxFiles, maxCharacters) ==> |batches| <= |other|
    ensures Concat(batches) == files && forall b <- batches :: WithinLimits(b, maxFilesOption, maxCharactersOption)
    ensures forall other :: Concat(other) == files && (forall b <- other :: WithinLimits(b, maxFilesOption, maxCharactersOption)) ==>
              |batches| <= |other|
  {
    var maxFiles, maxCharacters := OrDefault(maxFilesOption, 40), OrDefault(maxCharactersOption, 12000);
    batches := [];
    var current: seq<string> := [];
    var characters := 0;
    for i := 0 to |files|
      invariant Concat(batches) + current == files[..i]
      invariant characters == Characters(current)
      invariant FilledSoFar(batches, current, maxFiles, maxCharacters)
      invariant i > 0 ==> current != []
    {
      var file := files[i];
      ghost var done := Concat(batches) + current;
      CharactersSplit(current, [file]);
      assert Characters([file]) == |file| + 1;
      if |current| > 0 && (|current| >= maxFiles || characters + |file| + 1 > maxCharacters) {
        CloseBatch(batches, current, file, maxFiles, maxCharacters);
        ConcatSnoc(batches, current);
        batches := batches + [current];
        current := [];
        characters := 0;
      } else {
        GrowBatch(batches, current, file, maxFiles, maxCharacters);
      }
      assert Concat(batches) + current == done;
      current := current + [file];
      characters := characters + |file| + 1;
      assert files[..i + 1] == files[..i] + [file];
      assert Concat(batches) + current == done + [file];
      assert characters == Characters(current) by { CharactersSplit([], [file]); assert [] + [file] == [file]; }
    }
    assert files[..|files|] == files;
    if |current| > 0 {
      ConcatSnoc(batches, current);
      batches := batches + [current];
    }
    forall other | IsSplit(other, files, maxFiles, maxCharacters) ensures |batches| <= |other| {
      FullIsOptimal(batches, other, files, maxFiles, maxCharacters);
    }
    forall b: seq<string> ensures Fits(b, maxFiles, maxCharacters) <==> WithinLimits(b, maxFilesOption, maxCharactersOption) {
      FitsWithinLimits(b, maxFilesOption, maxCharactersOption);
    }
    hide Fits, WithinLimits;
  }

  lemma CloseBatch(batches: seq<seq<string>>, current: seq<string>, file: string, maxFiles: int, maxCharacters: int)
    requires FilledSoFar(batches, current, maxFiles, maxCharacters) && current != []
    requires |current| >= maxFiles || Characters(current) + |file| + 1 > maxCharacters
    ensures FilledSoFar(batches + [current], [] + [file], maxFiles, maxCharacters)
  {
    CharactersSplit(current, [file]);
    assert Characters([file]) == |file| + 1;
    var more := batches + [current] + [[file]];
    forall k | 1 <= k < |more| ensures Overflows(more[k - 1], more[k], maxFiles, maxCharacters) {
      if k <= |batches| {
        assert more[k - 1] == (batches + [current])[k - 1] && more[k] == (batches + [current])[k];
      }
    }
    assert [] + [file] == [file];
  }

  lemma GrowBatch(batches: seq<seq<string>>, current: seq<string>, file: string, maxFiles: int, maxCharacters: int)
    requires FilledSoFar(batches, current, maxFiles, maxCharacters)
    requires current == [] || (|current| < maxFiles && Characters(current) + |file| + 1 <= maxCharacters)
    ensures FilledSoFar(batches, current + [file], maxFiles, maxCharacters)
  {
    CharactersSplit(current, [file]);
    assert Characters([file]) == |file| + 1;
    if current != [] {
      var before, after := batches + [current], batches + [current + [file]];
      forall k | 1 <= k < |after| ensures Overflows(after[k - 1], after[k], maxFiles, maxCharacters) {
        assert after[k - 1] == before[k - 1] && Overflows(before[k - 1], before[k], maxFiles, maxCharacters);
        assert after[k][0] == before[k][0];
      }
    }
  }
}
