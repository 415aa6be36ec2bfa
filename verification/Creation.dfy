/** The settings a file is created with: defaults, limits, and refusals. */
module Creation {
  import opened Blocks

  const DH_GROUP_MULTIPLIER := 1024
  const MAX_GROUP_SIZE := 8
  const DEFAULT_GROUP_SIZE := 1
  const DEFAULT_MIN_MODULUS := 1
  const DEFAULT_MERGE_LOAD := 50
  const DEFAULT_SPLIT_LOAD := 80

  datatype Settings = Settings(groupSize: nat, minModulus: nat, bigRecSize: nat, mergeLoad: nat, splitLoad: nat)

  datatype Checked = Accepted(settings: Settings) | IllegalGroupSize | IllegalMergeLoad | IllegalSplitLoad

  /** Check the arguments of a create call, in order; a negative argument asks for the default. */
  function Check(groupSize: int, minModulus: int, bigRecSize: int, mergeLoad: int, splitLoad: int): Checked {
    if groupSize >= 0 && (groupSize < 1 || groupSize > MAX_GROUP_SIZE) then IllegalGroupSize
    else
      var bytes := (if groupSize < 0 then DEFAULT_GROUP_SIZE else groupSize) * DH_GROUP_MULTIPLIER;
      var groups := if minModulus < 1 then DEFAULT_MIN_MODULUS else minModulus;
      var big :=
        if bigRecSize < 0 then bytes * 8 / 10
        else if bigRecSize > bytes - BLOCK_HEADER_SIZE then bytes - BLOCK_HEADER_SIZE
        else bigRecSize;
      if mergeLoad > 99 then IllegalMergeLoad
      else
        var merge := if mergeLoad < 0 then DEFAULT_MERGE_LOAD else mergeLoad;
        if splitLoad >= 0 && splitLoad <= merge then IllegalSplitLoad
        else Accepted(Settings(bytes, groups, big, merge, if splitLoad < 0 then DEFAULT_SPLIT_LOAD else splitLoad))
  }

  /** What the file engine needs of its settings. */
  predicate Usable(s: Settings) {
    s.groupSize >= 1024 && s.groupSize % 1024 == 0 && s.minModulus >= 1 && s.bigRecSize <= s.groupSize - BLOCK_HEADER_SIZE
  }

  /** What each argument becomes: kilobytes, a default for what is missing, and for the size of a large
      record four fifths of the group size, rounded down, and never more than fits a block. */
  lemma AcceptedSettings(groupSize: int, minModulus: int, bigRecSize: int, mergeLoad: int, splitLoad: int)
    requires Check(groupSize, minModulus, bigRecSize, mergeLoad, splitLoad).Accepted?
    ensures var s := Check(groupSize, minModulus, bigRecSize, mergeLoad, splitLoad).settings;
            && (1 <= groupSize <= 8 ==> s.groupSize == 1024 * groupSize) && (groupSize < 0 ==> s.groupSize == 1024)
            && (minModulus >= 1 ==> s.minModulus == minModulus) && (minModulus < 1 ==> s.minModulus == 1)
            && (bigRecSize < 0 ==> 10 * s.bigRecSize <= 8 * s.groupSize < 10 * s.bigRecSize + 10)
            && (0 <= bigRecSize <= s.groupSize - 8 ==> s.bigRecSize == bigRecSize)
            && (bigRecSize > s.groupSize - 8 ==> s.bigRecSize == s.groupSize - 8)
            && (mergeLoad >= 0 ==> s.mergeLoad == mergeLoad) && (mergeLoad < 0 ==> s.mergeLoad == 50)
            && (splitLoad >= 0 ==> s.splitLoad == splitLoad) && (splitLoad < 0 ==> s.splitLoad == 80)
  {
  }

  /** Which argument is refused, if any: the first that is wrong. */
  lemma Refusals(groupSize: int, minModulus: int, bigRecSize: int, mergeLoad: int, splitLoad: int)
    ensures var r := Check(groupSize, minModulus, bigRecSize, mergeLoad, splitLoad);
            && (r.IllegalGroupSize? <==> groupSize == 0 || groupSize > 8)
            && (r.IllegalMergeLoad? <==> !r.IllegalGroupSize? && mergeLoad > 99)
            && (r.IllegalSplitLoad? <==> !r.IllegalGroupSize? && mergeLoad <= 99
                                         && 0 <= splitLoad <= (if mergeLoad < 0 then 50 else mergeLoad))
  {
  }

  lemma AcceptedIsUsable(groupSize: int, minModulus: int, bigRecSize: int, mergeLoad: int, splitLoad: int)
    requires Check(groupSize, minModulus, bigRecSize, mergeLoad, splitLoad).Accepted?
    ensures Usable(Check(groupSize, minModulus, bigRecSize, mergeLoad, splitLoad).settings)
  {
    var bytes := (if groupSize < 0 then DEFAULT_GROUP_SIZE else groupSize) * DH_GROUP_MULTIPLIER;
    assert bytes % 1024 == 0;
    assert bytes * 8 / 10 <= bytes - BLOCK_HEADER_SIZE;
  }

  /** The split load of a created file is above its merge load, except when the split load was
      left to its default and the merge load asked for is not below that default: the two are
      compared only when a split load is given. */
  lemma LoadsInOrder(groupSize: int, minModulus: int, bigRecSize: int, mergeLoad: int, splitLoad: int)
    requires Check(groupSize, minModulus, bigRecSize, mergeLoad, splitLoad).Accepted?
    ensures var s := Check(groupSize, minModulus, bigRecSize, mergeLoad, splitLoad).settings;
            s.splitLoad > s.mergeLoad <==> !(splitLoad < 0 && mergeLoad >= DEFAULT_SPLIT_LOAD)
  {
  }

  lemma LoadsOutOfOrder()
    ensures var r := Check(1, 1, -1, 90, -1); r.Accepted? && r.settings.splitLoad <= r.settings.mergeLoad
  {
  }
}
