/** The generic table: its pagination window and the create/edit dialog
    that feeds `DataForm`. */
module DataTable {
  import opened Seqs
  import opened Assoc
  import opened Js
  import opened Forms

  // ---------------------------------------------------------------------
  // Pagination

  /** An entry of the pager: a page index, or one of the two ellipses
      (`'ellipsis-start'`, `'ellipsis-end'`). */
  datatype PageItem = Page(index: int) | EllipsisStart | EllipsisEnd

  /** The pages `lo, lo + 1, ..., hi`, empty when `hi < lo`. */
  function Run(lo: int, hi: int): (r: seq<PageItem>)
    ensures |r| == if hi < lo then 0 else hi - lo + 1
    ensures forall k :: 0 <= k < |r| ==> r[k] == Page(lo + k)
  {
    if hi < lo then [] else seq(hi - lo + 1, k requires 0 <= k <= hi - lo => Page(lo + k))
  }

  lemma RunSnoc(lo: int, hi: int)
    requires lo <= hi + 1
    ensures Run(lo, hi) + [Page(hi + 1)] == Run(lo, hi + 1)
  {
    var a, b := Run(lo, hi) + [Page(hi + 1)], Run(lo, hi + 1);
    forall k | 0 <= k < |b|
      ensures a[k] == b[k]
    {
    }
  }

  lemma RunAppend(head: seq<PageItem>, lo: int, i: int)
    requires lo <= i
    ensures head + Run(lo, i - 1) + [Page(i)] == head + Run(lo, i)
  {
    RunSnoc(lo, i - 1);
  }

  function Max(a: int, b: int): int { if a >= b then a else b }
  function Min(a: int, b: int): int { if a <= b then a else b }

  /** The pager for `totalPages` pages with page `currentPage` shown: every
      page when there are at most seven; otherwise the first page, an
      ellipsis when the current page is past index 2, the current page
      with its neighbours (never the first or the last), an ellipsis when
      more than two pages follow, and the last page. */
  function PageWindow(totalPages: nat, currentPage: nat): seq<PageItem> {
    if totalPages <= 7 then Run(0, totalPages - 1)
    else
      [Page(0)]
      + (if currentPage > 2 then [EllipsisStart] else [])
      + Run(Max(1, currentPage - 1), Min(totalPages - 2, currentPage + 1))
      + (if currentPage < totalPages - 3 then [EllipsisEnd] else [])
      + [Page(totalPages - 1)]
  }

  /** `getPageNumbers`, with `table.getPageCount()` and the page index as
      inputs. */
  method GetPageNumbers(totalPages: nat, currentPage: nat) returns (pageNumbers: seq<PageItem>)
    ensures pageNumbers == PageWindow(totalPages, currentPage)
  {
    pageNumbers := [];
    if totalPages <= 7 {
      for i := 0 to totalPages
        invariant pageNumbers == Run(0, i - 1)
      {
        RunSnoc(0, i - 1);
        pageNumbers := pageNumbers + [Page(i)];
      }
    } else {
      pageNumbers := pageNumbers + [Page(0)];
      if currentPage > 2 {
        pageNumbers := pageNumbers + [EllipsisStart];
      }
      var head := pageNumbers;
      assert head == [Page(0)] + (if currentPage > 2 then [EllipsisStart] else []);
      var start := Max(1, currentPage - 1);
      var end := Min(totalPages - 2, currentPage + 1);
      var i := start;
      while i <= end
        invariant start <= i <= Max(start, end + 1)
        invariant pageNumbers == head + Run(start, i - 1)
      {
        RunAppend(head, start, i);
        pageNumbers := pageNumbers + [Page(i)];
        i := i + 1;
      }
      assert Run(start, i - 1) == Run(start, end);
      var middle := pageNumbers;
      if currentPage < totalPages - 3 {
        pageNumbers := pageNumbers + [EllipsisEnd];
      }
      assert pageNumbers == middle + (if currentPage < totalPages - 3 then [EllipsisEnd] else []);
      pageNumbers := pageNumbers + [Page(totalPages - 1)];
    }
  }

  /** Page indices appear in strictly increasing order. */
  predicate PagesIncreasing(r: seq<PageItem>) {
    forall i, j :: 0 <= i < j < |r| && r[i].Page? && r[j].Page? ==> r[i].index < r[j].index
  }

  /** Up to seven pages: exactly `0, 1, ..., totalPages - 1`. */
  lemma SmallWindow(totalPages: nat, currentPage: nat)
    requires totalPages <= 7
    ensures |PageWindow(totalPages, currentPage)| == totalPages
    ensures forall i :: 0 <= i < totalPages ==> PageWindow(totalPages, currentPage)[i] == Page(i)
  {
  }

  lemma WindowShape(totalPages: nat, currentPage: nat)
    requires totalPages > 7
    ensures var mid := Run(Max(1, currentPage - 1), Min(totalPages - 2, currentPage + 1));
      var pre := [Page(0)] + (if currentPage > 2 then [EllipsisStart] else []);
      var post := (if currentPage < totalPages - 3 then [EllipsisEnd] else []) + [Page(totalPages - 1)];
      PageWindow(totalPages, currentPage) == pre + mid + post
  {
  }

  /** More than seven pages: the pager starts at the first page and ends at
      the last one, never lists more than seven entries, shows the current
      page whenever it is a real page, and lists its page indices in
      strictly increasing order within `[0, totalPages - 1]`. */
  lemma LargeWindow(totalPages: nat, currentPage: nat)
    requires totalPages > 7
    ensures var r := PageWindow(totalPages, currentPage);
      |r| <= 7 && r[0] == Page(0) && r[|r| - 1] == Page(totalPages - 1) &&
      PagesIncreasing(r) &&
      (forall i :: 0 <= i < |r| && r[i].Page? ==> 0 <= r[i].index < totalPages) &&
      (currentPage < totalPages ==> Page(currentPage) in r)
  {
    WindowShape(totalPages, currentPage);
    WindowOrder(totalPages, currentPage);
    WindowBounds(totalPages, currentPage);
    if currentPage < totalPages {
      WindowCurrent(totalPages, currentPage);
    }
  }

  lemma WindowOrder(totalPages: nat, currentPage: nat)
    requires totalPages > 7
    ensures PagesIncreasing(PageWindow(totalPages, currentPage))
  {
    var r := PageWindow(totalPages, currentPage);
    var lo, hi := Max(1, currentPage - 1), Min(totalPages - 2, currentPage + 1);
    var mid := Run(lo, hi);
    var pre := [Page(0)] + (if currentPage > 2 then [EllipsisStart] else []);
    var post := (if currentPage < totalPages - 3 then [EllipsisEnd] else []) + [Page(totalPages - 1)];
    WindowShape(totalPages, currentPage);
    forall i, j | 0 <= i < j < |r| && r[i].Page? && r[j].Page?
      ensures r[i].index < r[j].index
    {
      if i < |pre| {
        assert r[i] == Page(0);
        if j < |pre| + |mid| {
          assert r[j] == mid[j - |pre|];
        } else {
          assert r[j] == post[j - |pre| - |mid|];
        }
      } else if i < |pre| + |mid| {
        assert r[i] == mid[i - |pre|];
        if j < |pre| + |mid| {
          assert r[j] == mid[j - |pre|];
        } else {
          assert r[j] == post[j - |pre| - |mid|];
        }
      } else {
        assert false;
      }
    }
  }

  lemma WindowBounds(totalPages: nat, currentPage: nat)
    requires totalPages > 7
    ensures var r := PageWindow(totalPages, currentPage);
      forall i :: 0 <= i < |r| && r[i].Page? ==> 0 <= r[i].index < totalPages
  {
    var r := PageWindow(totalPages, currentPage);
    var lo, hi := Max(1, currentPage - 1), Min(totalPages - 2, currentPage + 1);
    var mid := Run(lo, hi);
    var pre := [Page(0)] + (if currentPage > 2 then [EllipsisStart] else []);
    var post := (if currentPage < totalPages - 3 then [EllipsisEnd] else []) + [Page(totalPages - 1)];
    WindowShape(totalPages, currentPage);
    forall i | 0 <= i < |r| && r[i].Page?
      ensures 0 <= r[i].index < totalPages
    {
      if |pre| <= i < |pre| + |mid| {
        assert r[i] == mid[i - |pre|];
      } else if i >= |pre| + |mid| {
        assert r[i] == post[i - |pre| - |mid|];
      }
    }
  }

  lemma WindowCurrent(totalPages: nat, currentPage: nat)
    requires totalPages > 7 && currentPage < totalPages
    ensures Page(currentPage) in PageWindow(totalPages, currentPage)
  {
    var r := PageWindow(totalPages, currentPage);
    var lo, hi := Max(1, currentPage - 1), Min(totalPages - 2, currentPage + 1);
    var mid := Run(lo, hi);
    var pre := [Page(0)] + (if currentPage > 2 then [EllipsisStart] else []);
    WindowShape(totalPages, currentPage);
    if currentPage == 0 {
      assert r[0] == Page(0);
    } else if currentPage == totalPages - 1 {
      assert r[|r| - 1] == Page(currentPage);
    } else {
      assert mid[currentPage - lo] == Page(currentPage);
      assert r[|pre| + currentPage - lo] == Page(currentPage);
    }
  }

  /** More than seven pages: `'ellipsis-start'` appears exactly when the
      current page is past index 2 and `'ellipsis-end'` exactly when more
      than two pages follow the current one, each at most once. */
  lemma WindowEllipses(totalPages: nat, currentPage: nat)
    requires totalPages > 7
    ensures var r := PageWindow(totalPages, currentPage);
      (EllipsisStart in r <==> currentPage > 2) &&
      (EllipsisEnd in r <==> currentPage < totalPages - 3) &&
      multiset(r)[EllipsisStart] <= 1 && multiset(r)[EllipsisEnd] <= 1
  {
    var r := PageWindow(totalPages, currentPage);
    var mid := Run(Max(1, currentPage - 1), Min(totalPages - 2, currentPage + 1));
    var pre := [Page(0)] + (if currentPage > 2 then [EllipsisStart] else []);
    var post := (if currentPage < totalPages - 3 then [EllipsisEnd] else []) + [Page(totalPages - 1)];
    WindowShape(totalPages, currentPage);
    assert EllipsisStart !in mid && EllipsisEnd !in mid;
    assert multiset(mid)[EllipsisStart] == 0 && multiset(mid)[EllipsisEnd] == 0;
    assert multiset(r) == multiset(pre) + multiset(mid) + multiset(post);
  }

  // ---------------------------------------------------------------------
  // The create/edit dialog

  datatype Mode = Create | Edit

  /** The date fields among `fields` that have key `k`. */
  predicate IsDateKey(fields: seq<FieldSpec>, k: string) {
    exists i :: 0 <= i < |fields| && fields[i].key == k && fields[i].kind == DateInput
  }

  /** The value `handleEdit` puts in the form for key `k`: the date part of
      a truthy string under a date field, the item's value otherwise. */
  function EditValue(fields: seq<FieldSpec>, item: Obj, k: string): Value {
    if IsDateKey(fields, k) && Truthy(Get(item, k)) && Get(item, k).Str? then Str(DatePart(Get(item, k).s))
    else Get(item, k)
  }

  /** Every truthy value under a date field is a string, so `split` cannot
      throw. */
  predicate DatesAreStrings(fields: seq<FieldSpec>, item: Obj) {
    forall i :: 0 <= i < |fields| && fields[i].kind == DateInput && Truthy(Get(item, fields[i].key)) ==>
      Get(item, fields[i].key).Str?
  }

  lemma IsDateKeyStep(fields: seq<FieldSpec>, i: nat, k: string)
    requires i < |fields|
    ensures IsDateKey(fields[..i + 1], k) <==> IsDateKey(fields[..i], k) || (fields[i].key == k && fields[i].kind == DateInput)
  {
    if IsDateKey(fields[..i + 1], k) {
      var j :| 0 <= j < i + 1 && fields[..i + 1][j].key == k && fields[..i + 1][j].kind == DateInput;
      if j < i {
        assert fields[..i][j] == fields[..i + 1][j];
      }
    }
    if IsDateKey(fields[..i], k) {
      var j :| 0 <= j < i && fields[..i][j].key == k && fields[..i][j].kind == DateInput;
      assert fields[..i + 1][j] == fields[..i][j];
    }
    if fields[i].key == k && fields[i].kind == DateInput {
      assert fields[..i + 1][i] == fields[i];
    }
  }

  /** One more field: only its own key can change its edit value. */
  lemma EditValueStep(fields: seq<FieldSpec>, item: Obj, i: nat, k: string)
    requires i < |fields|
    ensures EditValue(fields[..i + 1], item, k) ==
      if k == fields[i].key && fields[i].kind == DateInput && Truthy(Get(item, k)) && Get(item, k).Str?
      then Str(DatePart(Get(item, k).s))
      else EditValue(fields[..i], item, k)
  {
    IsDateKeyStep(fields, i, k);
  }

  lemma DatesStep(fields: seq<FieldSpec>, item: Obj, i: nat)
    requires i < |fields| && DatesAreStrings(fields[..i], item)
    requires fields[i].kind == DateInput && Truthy(Get(item, fields[i].key)) ==> Get(item, fields[i].key).Str?
    ensures DatesAreStrings(fields[..i + 1], item)
  {
    var next := fields[..i + 1];
    forall j | 0 <= j < i + 1 && next[j].kind == DateInput && Truthy(Get(item, next[j].key))
      ensures Get(item, next[j].key).Str?
    {
      if j < i { assert next[j] == fields[..i][j]; }
    }
  }

  /** The body of `handleEdit`: copy the item, then cut each date field's
      truthy value at the first 'T' or space. `None` is the TypeError that
      `split` raises on a value that is not a string. */
  method FormatForEdit(fields: seq<FieldSpec>, item: Obj) returns (formatted: Option<Obj>)
    ensures formatted.Some? <==> DatesAreStrings(fields, item)
    ensures formatted.Some? ==> Keys(formatted.value) == Keys(item)
    ensures formatted.Some? ==> forall k :: Get(formatted.value, k) == EditValue(fields, item, k)
  {
    var f := item;
    for i := 0 to |fields|
      invariant Keys(f) == Keys(item)
      invariant DatesAreStrings(fields[..i], item)
      invariant forall k :: Get(f, k) == EditValue(fields[..i], item, k)
    {
      var field := fields[i];
      var v := Get(item, field.key);
      if field.kind == DateInput && Truthy(v) {
        if !v.Str? {
          assert !DatesAreStrings(fields, item) by {
            assert fields[i].kind == DateInput && Truthy(Get(item, fields[i].key));
          }
          return None;
        }
        assert Lookup(item, field.key).Some?;
        KeysPut(f, field.key, Str(DatePart(v.s)));
        forall k ensures Get(Put(f, field.key, Str(DatePart(v.s))), k) == EditValue(fields[..i + 1], item, k) {
          GetPut(f, field.key, Str(DatePart(v.s)), k);
          EditValueStep(fields, item, i, k);
        }
        f := Put(f, field.key, Str(DatePart(v.s)));
      } else {
        forall k ensures Get(f, k) == EditValue(fields[..i + 1], item, k) {
          EditValueStep(fields, item, i, k);
        }
      }
      DatesStep(fields, item, i);
    }
    assert fields[..|fields|] == fields;
    formatted := Some(f);
  }

  /** A date value cut once is already cut: opening the edit dialog on a
      record it produced changes no date again. */
  lemma EditValueStable(fields: seq<FieldSpec>, item: Obj, k: string)
    requires Get(item, k).Str?
    ensures var once := EditValue(fields, item, k);
      EditValue(fields, [(k, once)], k) == once
  {
    var once := EditValue(fields, item, k);
    if IsDateKey(fields, k) && Truthy(Get(item, k)) {
      DatePartIdempotent(Get(item, k).s);
    }
  }

  /** What `handleFormSubmit` calls. `Crash` is the TypeError of reading
      `selectedItem.id` with no item selected. */
  datatype Dispatch = CreateCall(data: Obj) | UpdateCall(id: Value, data: Obj) | Crash

  class TableDialog {
    const fields: seq<FieldSpec>
    var dialogOpen: bool
    var mode: Mode
    var selectedItem: Option<Obj>
    var initialFormData: Obj

    /** Edit mode always has an item to update, so a submit after the
        handlers never reaches the crash. */
    predicate Valid()
      reads this
    {
      mode == Edit ==> selectedItem.Some?
    }

    constructor(fields: seq<FieldSpec>)
      ensures this.fields == fields
      ensures !dialogOpen && mode == Create && selectedItem == None && initialFormData == []
      ensures Valid()
    {
      this.fields := fields;
      dialogOpen := false;
      mode := Create;
      selectedItem := None;
      initialFormData := [];
    }

    /** `handleCreate`: create mode, no item, the fields' default data, and
        the dialog open. */
    method HandleCreate()
      modifies this
      ensures mode == Create && selectedItem == None && dialogOpen
      ensures initialFormData == InitialFormData(fields)
      ensures Valid()
    {
      mode := Create;
      selectedItem := None;
      initialFormData := InitialFormData(fields);
      dialogOpen := true;
    }

    /** `handleEdit`: edit mode and the item are set first; the formatted
        copy becomes the initial data and the dialog opens unless `split`
        throws, which leaves both as they were. */
    method HandleEdit(item: Obj) returns (shown: bool)
      modifies this
      ensures mode == Edit && selectedItem == Some(item)
      ensures shown <==> DatesAreStrings(fields, item)
      ensures shown ==> dialogOpen && Keys(initialFormData) == Keys(item)
      ensures shown ==> forall k :: Get(initialFormData, k) == EditValue(fields, item, k)
      ensures !shown ==> dialogOpen == old(dialogOpen) && initialFormData == old(initialFormData)
      ensures Valid()
    {
      mode := Edit;
      selectedItem := Some(item);
      var formatted := FormatForEdit(fields, item);
      if formatted.None? {
        return false;
      }
      initialFormData := formatted.value;
      dialogOpen := true;
      shown := true;
    }

    /** `handleFormSubmit`: create mode calls `onCreate`, edit mode calls
        `onUpdate` with the selected item's id; the dialog then closes. */
    method HandleFormSubmit(formData: Obj) returns (call: Dispatch)
      modifies this
      ensures mode == old(mode) && selectedItem == old(selectedItem) && initialFormData == old(initialFormData)
      ensures old(mode) == Create ==> call == CreateCall(formData) && !dialogOpen
      ensures old(mode) == Edit && old(selectedItem).Some? ==>
        call == UpdateCall(Get(old(selectedItem).value, "id"), formData) && !dialogOpen
      ensures old(mode) == Edit && old(selectedItem).None? ==> call == Crash && dialogOpen == old(dialogOpen)
      ensures old(Valid()) ==> call != Crash
    {
      if mode == Create {
        call := CreateCall(formData);
      } else if selectedItem.Some? {
        call := UpdateCall(Get(selectedItem.value, "id"), formData);
      } else {
        return Crash;
      }
      dialogOpen := false;
    }
  }
}
