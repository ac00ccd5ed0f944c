/** The six top-level service categories of an order and the check-box
    toggle that keeps their dependencies closed: choosing extraction/QC
    (萃取/QC, EQ) brings library preparation (建庫服務, L) and sequencing
    (定序服務, S) with it, choosing L brings S, and neither L nor S can be
    unchecked while something that needs it is still checked. */
module Categories {
  import opened Seqs

  /** QC (Q), 萃取/QC (EQ), 建庫服務 (L), 定序服務 (S), 分析服務 (A), 套組產品 (AP). */
  datatype Category = QC | Extraction | Library | Sequencing | Analysis | Package

  /** The fixed order in which categories become service items. */
  const CanonicalOrder: seq<Category> := [QC, Extraction, Library, Sequencing, Analysis, Package]

  /** Why an uncheck was refused. */
  datatype BlockReason =
    | RequiredByExtraction  // 已勾選「萃取/QC」，無法取消此項目
    | RequiredByLibrary     // 已勾選「建庫服務」，無法取消定序服務

  /** What a toggle did: a check (with the categories it checked on its own,
      in the order it pushed them), an uncheck, or a refusal. */
  datatype ToggleOutcome = Checked(autoChecked: seq<Category>) | Unchecked | Blocked(reason: BlockReason)

  datatype Toggled = Toggled(selected: seq<Category>, outcome: ToggleOutcome)

  /** The dependency closure: EQ needs L and S, L needs S. */
  predicate Closed(selected: seq<Category>) {
    && (Extraction in selected ==> Library in selected && Sequencing in selected)
    && (Library in selected ==> Sequencing in selected)
  }

  /** The refusal rule for unchecking `c`, if any. */
  function BlockerOf(selected: seq<Category>, c: Category): Option<BlockReason> {
    if (c == Library || c == Sequencing) && Extraction in selected then Some(RequiredByExtraction)
    else if c == Sequencing && Library in selected then Some(RequiredByLibrary)
    else None
  }

  /** The dependencies a newly checked `c` pulls in that `selected + [c]`
      lacks, in the order they are pushed. */
  function MissingDependencies(selected: seq<Category>, c: Category): seq<Category> {
    if c == Extraction then
      (if Library in selected then [] else [Library]) +
      (if Sequencing in selected then [] else [Sequencing])
    else if c == Library then
      (if Sequencing in selected then [] else [Sequencing])
    else []
  }

  /** The effect of clicking the check box of `c`. */
  function Toggle(selected: seq<Category>, c: Category): Toggled {
    if c in selected then
      match BlockerOf(selected, c)
      case Some(reason) => Toggled(selected, Blocked(reason))
      case None => Toggled(Without(selected, c), Unchecked)
    else
      var auto := MissingDependencies(selected, c);
      Toggled(selected + [c] + auto, Checked(auto))
  }

  /** The toggle as the handler runs it: copy the list, then either filter it
      or push the category and each missing dependency. */
  method ToggleCategory(selected: seq<Category>, c: Category) returns (newSelected: seq<Category>, outcome: ToggleOutcome)
    ensures Toggled(newSelected, outcome) == Toggle(selected, c)
  {
    newSelected := selected;
    if c in newSelected {
      if (c == Library || c == Sequencing) && Extraction in newSelected {
        return selected, Blocked(RequiredByExtraction);
      }
      if c == Sequencing && Library in newSelected {
        return selected, Blocked(RequiredByLibrary);
      }
      newSelected := Without(newSelected, c);
      outcome := Unchecked;
    } else {
      newSelected := newSelected + [c];
      var autoChecked: seq<Category> := [];
      assert forall x :: x in newSelected <==> x in selected || x == c;
      if c == Extraction {
        if Library !in newSelected {
          newSelected := newSelected + [Library];
          autoChecked := autoChecked + [Library];
        }
        if Sequencing !in newSelected {
          newSelected := newSelected + [Sequencing];
          autoChecked := autoChecked + [Sequencing];
        }
      }
      if c == Library {
        if Sequencing !in newSelected {
          newSelected := newSelected + [Sequencing];
          autoChecked := autoChecked + [Sequencing];
        }
      }
      assert autoChecked == MissingDependencies(selected, c);
      assert newSelected == selected + [c] + autoChecked;
      outcome := Checked(autoChecked);
    }
  }

  /** A toggle never breaks the dependency closure. */
  lemma ToggleKeepsClosed(selected: seq<Category>, c: Category)
    requires Closed(selected)
    ensures Closed(Toggle(selected, c).selected)
  {
  }

  /** A toggle never makes a category appear twice. */
  lemma ToggleKeepsNoDuplicates(selected: seq<Category>, c: Category)
    requires NoDuplicates(selected)
    ensures NoDuplicates(Toggle(selected, c).selected)
  {
    if c !in selected {
      var s1 := selected + [c];
      var auto := MissingDependencies(selected, c);
      var r := s1 + auto;
      assert NoDuplicates(s1);
      assert NoDuplicates(auto);
      forall i, j | 0 <= i < j < |r| ensures r[i] != r[j] {
        if j >= |s1| && i < |s1| {
          assert r[j] in auto && r[j] !in s1;
          assert r[i] in s1;
        } else if j >= |s1| {
          assert r[i] == auto[i - |s1|] && r[j] == auto[j - |s1|];
        }
      }
    }
  }

  /** An uncheck is refused exactly when the category is required by a
      checked one, and then nothing changes; otherwise it removes that
      category and nothing else. */
  lemma UncheckRule(selected: seq<Category>, c: Category)
    requires c in selected
    ensures Toggle(selected, c).outcome.Blocked? <==>
              ((c == Library || c == Sequencing) && Extraction in selected) || (c == Sequencing && Library in selected)
    ensures Toggle(selected, c).outcome.Blocked? ==> Toggle(selected, c).selected == selected
    ensures !Toggle(selected, c).outcome.Blocked? ==>
              forall x :: x in Toggle(selected, c).selected <==> x in selected && x != c
  {
  }

  /** A check keeps the old list as a prefix, adds the category itself, and
      then adds exactly the dependencies that were missing. */
  lemma CheckRule(selected: seq<Category>, c: Category)
    requires c !in selected
    ensures var r := Toggle(selected, c);
      && r.outcome.Checked?
      && r.selected == selected + [c] + r.outcome.autoChecked
      && (forall x :: x in r.outcome.autoChecked <==>
            x !in selected && ((c == Extraction && (x == Library || x == Sequencing)) || (c == Library && x == Sequencing)))
  {
  }

  /** The selection after clicking the boxes in `clicks`, starting empty. */
  function Run(clicks: seq<Category>): seq<Category> {
    if clicks == [] then [] else Toggle(Run(clicks[..|clicks| - 1]), clicks[|clicks| - 1]).selected
  }

  /** Every selection reachable from the empty one is closed and has no
      repeated category. */
  lemma {:induction false} ReachableSelections(clicks: seq<Category>)
    ensures Closed(Run(clicks)) && NoDuplicates(Run(clicks))
  {
    if clicks != [] {
      var before := Run(clicks[..|clicks| - 1]);
      ReachableSelections(clicks[..|clicks| - 1]);
      ToggleKeepsClosed(before, clicks[|clicks| - 1]);
      ToggleKeepsNoDuplicates(before, clicks[|clicks| - 1]);
    }
  }

  /** Checking EQ on an empty selection brings L and S, reported as
      auto-checked. */
  lemma CheckingExtraction()
    ensures Toggle([], Extraction) == Toggled([Extraction, Library, Sequencing], Checked([Library, Sequencing]))
  {
    assert MissingDependencies([], Extraction) == [Library, Sequencing];
  }

  /** While EQ is checked neither L nor S can be unchecked; EQ itself can,
      leaving L and S. */
  lemma ExtractionHoldsItsDependencies()
    ensures Toggle([Extraction, Library, Sequencing], Library).outcome == Blocked(RequiredByExtraction)
    ensures Toggle([Extraction, Library, Sequencing], Sequencing).outcome == Blocked(RequiredByExtraction)
    ensures Toggle([Extraction, Library, Sequencing], Extraction).selected == [Library, Sequencing]
  {
    var all := [Extraction, Library, Sequencing];
    assert all[0] == Extraction && all[1] == Library && all[2] == Sequencing;
    assert all[1..] == [Library, Sequencing];
    assert Extraction !in all[1..];
  }

  /** Once EQ is gone, S is still held by L, and L can be unchecked. */
  lemma LibraryHoldsSequencing()
    ensures Toggle([Library, Sequencing], Sequencing).outcome == Blocked(RequiredByLibrary)
    ensures Toggle([Library, Sequencing], Library) == Toggled([Sequencing], Unchecked)
  {
    var both := [Library, Sequencing];
    assert both[0] == Library && both[1] == Sequencing;
    assert Extraction !in both;
    assert both[1..] == [Sequencing];
    assert Library !in both[1..];
  }
}
