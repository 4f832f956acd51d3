/**
 * The encoder makes the best of its tables (search_hd_table, search_static_table and deflate_nv of
 * lib/nghttp2_hd.c): what is there is found, and the first of it.
 */
module HpackSearch {
  import opened Bytes
  import opened HpackTable
  import opened HpackEncoder

  /** Entry `i` of the joint address space has the name of `f`. */
  ghost predicate Names(d: Dictionary, t: seq<Entry>, i: nat, f: Field)
    requires |d.fixed| == StaticLength
  {
    i < StaticLength + |t| && TableGet(d, t, i).name == f.name
  }

  /** It also has its value. */
  ghost predicate Matches(d: Dictionary, t: seq<Entry>, i: nat, f: Field)
    requires |d.fixed| == StaticLength
  {
    Names(d, t, i, f) && TableGet(d, t, i).value == f.value
  }

  ghost predicate FirstName(d: Dictionary, t: seq<Entry>, i: nat, f: Field)
    requires |d.fixed| == StaticLength
  {
    Names(d, t, i, f) && forall j: nat | j < i :: !Names(d, t, j, f)
  }

  ghost predicate FirstMatch(d: Dictionary, t: seq<Entry>, i: nat, f: Field)
    requires |d.fixed| == StaticLength
  {
    Matches(d, t, i, f) && forall j: nat | j < i :: !Matches(d, t, j, f)
  }

  /** What a search should come to: the first entry that matches, or else the first of the name. */
  ghost predicate IsBest(d: Dictionary, t: seq<Entry>, r: Found, f: Field, mode: Mode)
    requires |d.fixed| == StaticLength
  {
    if !mode.NeverIndexing? && (exists i: nat :: Matches(d, t, i, f)) then
      r.matched && r.index >= 0 && FirstMatch(d, t, r.index, f)
    else
      !r.matched && if exists i: nat :: Names(d, t, i, f) then r.index >= 0 && FirstName(d, t, r.index, f) else r.index == -1
  }

  /** The test the dynamic search makes tells entries of the name from others. */
  lemma SameNumber(d: Dictionary, t: seq<Entry>, i: nat, f: Field)
    requires d.Valid() && AllNumbered(d, t) && i < |t|
    ensures
      var token := d.token(f.name);
      (t[i].token != token || (token == -1 && t[i].name != f.name)) <==> t[i].name != f.name
  {
    assert WellNumbered(d, t[i]);
  }

  /** From `i` on the first match is found, if there is one. */
  lemma {:induction false} DynamicMatch(d: Dictionary, t: seq<Entry>, i: nat, best: int, f: Field, mode: Mode)
    requires d.Valid() && AllNumbered(d, t) && i <= |t|
    ensures
      var r := SearchDynamicFrom(t, i, best, f, d.token(f.name), mode);
      var k := r.index - StaticLength;
      && (r.matched ==>
            && !mode.NeverIndexing? && i <= k < |t| && t[k].name == f.name && t[k].value == f.value
            && forall j | i <= j < k :: !(t[j].name == f.name && t[j].value == f.value))
      && (!r.matched && !mode.NeverIndexing? ==> forall j | i <= j < |t| :: !(t[j].name == f.name && t[j].value == f.value))
    decreases |t| - i
  {
    if i < |t| {
      SameNumber(d, t, i, f);
      if t[i].name != f.name {
        DynamicMatch(d, t, i + 1, best, f, mode);
      } else if mode.NeverIndexing? || t[i].value != f.value {
        DynamicMatch(d, t, i + 1, if best == -1 then i + StaticLength else best, f, mode);
      }
    }
  }

  /** Without a match it is the name known before, or the first one found. */
  lemma {:induction false} DynamicName(d: Dictionary, t: seq<Entry>, i: nat, best: int, f: Field, mode: Mode)
    requires d.Valid() && AllNumbered(d, t) && i <= |t| && best >= -1
    requires !SearchDynamicFrom(t, i, best, f, d.token(f.name), mode).matched
    ensures
      var r := SearchDynamicFrom(t, i, best, f, d.token(f.name), mode);
      var k := r.index - StaticLength;
      && (best != -1 ==> r.index == best)
      && (best == -1 ==>
            if r.index == -1 then forall j | i <= j < |t| :: t[j].name != f.name
            else i <= k < |t| && t[k].name == f.name && forall j | i <= j < k :: t[j].name != f.name)
    decreases |t| - i
  {
    if i < |t| {
      SameNumber(d, t, i, f);
      DynamicName(d, t, i + 1, if t[i].name == f.name && best == -1 then i + StaticLength else best, f, mode);
    }
  }

  lemma {:induction false} SearchStaticFirst(d: Dictionary, i: nat, token: nat, value: seq<Byte>)
    requires d.Valid() && d.Grouped() && token <= i <= StaticLength
    requires forall j | token <= j < i :: d.fixed[j].token == token && d.fixed[j].value != value
    ensures
      var r := SearchStaticFrom(d, i, token, value);
      && (r.matched ==>
            && token <= r.index < StaticLength && d.fixed[r.index].token == token && d.fixed[r.index].value == value
            && forall j | token <= j < r.index :: d.fixed[j].value != value)
      && (!r.matched ==> r.index == token && forall j | 0 <= j < StaticLength && d.fixed[j].token == token :: d.fixed[j].value != value)
    decreases StaticLength - i
  {
    if i < StaticLength && d.fixed[i].token == token {
      if d.fixed[i].value != value { SearchStaticFirst(d, i + 1, token, value); }
    } else {
      forall j | 0 <= j < StaticLength && d.fixed[j].token == token ensures j < i && d.fixed[j].value != value {
        assert d.GroupedAt(j);
      }
    }
  }

  /** The static entries of a name are those with its number. */
  lemma StaticNames(d: Dictionary, f: Field)
    requires d.Valid() && d.Grouped()
    ensures forall j | 0 <= j < StaticLength :: d.fixed[j].name == f.name <==> d.fixed[j].token == d.token(f.name)
    ensures forall j | 0 <= j < StaticLength && d.fixed[j].name == f.name :: 0 <= d.token(f.name) <= j
  {
    forall j | 0 <= j < StaticLength
      ensures d.fixed[j].name == f.name <==> d.fixed[j].token == d.token(f.name)
      ensures d.fixed[j].name == f.name ==> 0 <= d.token(f.name) <= j
    {
      assert d.GroupedAt(j) && d.token(d.fixed[j].name) == d.fixed[j].token;
    }
  }

  lemma StaticPart(d: Dictionary, t: seq<Entry>, j: nat, f: Field)
    requires |d.fixed| == StaticLength
    ensures j < StaticLength ==> (Names(d, t, j, f) <==> d.fixed[j].name == f.name) && TableGet(d, t, j) == d.fixed[j]
    ensures StaticLength <= j < StaticLength + |t| ==>
      (Names(d, t, j, f) <==> t[j - StaticLength].name == f.name) && TableGet(d, t, j) == t[j - StaticLength]
  {}

  lemma NothingStatic(d: Dictionary, t: seq<Entry>, f: Field, mode: Mode)
    requires d.Valid() && d.Grouped() && AllNumbered(d, t) && !(0 <= d.token(f.name) < StaticLength)
    ensures IsBest(d, t, Search(d, t, f, mode), f, mode)
  {
    var r := Search(d, t, f, mode);
    DynamicMatch(d, t, 0, -1, f, mode);
    if !r.matched { DynamicName(d, t, 0, -1, f, mode); }
    StaticNames(d, f);
    forall j: nat | Names(d, t, j, f) ensures j >= StaticLength && t[j - StaticLength].name == f.name { StaticPart(d, t, j, f); }
    if r.index >= 0 {
      StaticPart(d, t, r.index, f);
      assert Names(d, t, r.index, f) && (r.matched ==> Matches(d, t, r.index, f));
    }
    if r.matched {
      forall j: nat | j < r.index ensures !Matches(d, t, j, f) { StaticPart(d, t, j, f); }
    }
  }

  /** A name that is in the static table is first there. */
  lemma StaticIsFirst(d: Dictionary, t: seq<Entry>, f: Field)
    requires d.Valid() && d.Grouped() && 0 <= d.token(f.name) < StaticLength
    ensures FirstName(d, t, d.token(f.name), f)
  {
    StaticNames(d, f);
    StaticPart(d, t, d.token(f.name), f);
    forall j: nat | j < d.token(f.name) ensures !Names(d, t, j, f) { StaticPart(d, t, j, f); }
  }

  lemma StaticMatch(d: Dictionary, t: seq<Entry>, f: Field, mode: Mode)
    requires d.Valid() && d.Grouped() && 0 <= d.token(f.name) < StaticLength && !mode.NeverIndexing?
    ensures
      var r := SearchStatic(d, d.token(f.name), f.value, mode);
      && (r.matched ==> r.index >= 0 && FirstMatch(d, t, r.index, f))
      && (!r.matched ==> r.index == d.token(f.name) && forall j: nat | j < StaticLength :: !Matches(d, t, j, f))
  {
    var token := d.token(f.name);
    var r := SearchStatic(d, token, f.value, mode);
    SearchStaticFirst(d, token, token, f.value);
    StaticNames(d, f);
    if r.matched {
      StaticPart(d, t, r.index, f);
      forall j: nat | j < r.index ensures !Matches(d, t, j, f) { StaticPart(d, t, j, f); }
    } else {
      forall j: nat | j < StaticLength ensures !Matches(d, t, j, f) { StaticPart(d, t, j, f); }
    }
  }

  lemma SomethingStatic(d: Dictionary, t: seq<Entry>, f: Field, mode: Mode)
    requires d.Valid() && d.Grouped() && AllNumbered(d, t) && 0 <= d.token(f.name) < StaticLength
    ensures IsBest(d, t, Search(d, t, f, mode), f, mode)
  {
    var token := d.token(f.name);
    var r := Search(d, t, f, mode);
    StaticIsFirst(d, t, f);
    if !mode.NeverIndexing? { StaticMatch(d, t, f, mode); }
    if !SearchStatic(d, token, f.value, mode).matched {
      DynamicMatch(d, t, 0, token, f, mode);
      if !r.matched { DynamicName(d, t, 0, token, f, mode); }
      forall j: nat | StaticLength <= j && Matches(d, t, j, f)
        ensures t[j - StaticLength].name == f.name && t[j - StaticLength].value == f.value
      {
        StaticPart(d, t, j, f);
      }
      StaticPart(d, t, r.index, f);
      if r.matched {
        assert Matches(d, t, r.index, f);
        forall j: nat | j < r.index ensures !Matches(d, t, j, f) { StaticPart(d, t, j, f); }
      }
    }
  }

  /** A search finds exactly the first entry with the field's name and value, or else the first of its name. */
  lemma SearchIsBest(d: Dictionary, t: seq<Entry>, f: Field, mode: Mode)
    requires d.Valid() && d.Grouped() && AllNumbered(d, t)
    ensures IsBest(d, t, Search(d, t, f, mode), f, mode)
  {
    if 0 <= d.token(f.name) < StaticLength { SomethingStatic(d, t, f, mode); } else { NothingStatic(d, t, f, mode); }
  }

  // ------------------------------------------------------------- what is written

  /**
   * What is written for a field: the index of the first entry that has it, if there is one and it
   * may be indexed; else a literal with the first index of its name, if there is one; else both
   * strings.  Only the last two may enter it into the table.
   */
  lemma FieldIsBest(d: Dictionary, t: seq<Entry>, max: nat, f: Field)
    requires d.Valid() && d.Grouped() && AllNumbered(d, t)
    ensures
      var mode := ChooseMode(d, f, max);
      if !mode.NeverIndexing? && (exists i: nat :: Matches(d, t, i, f)) then
        (exists i: nat :: FirstMatch(d, t, i, f) && FieldBytes(d, t, max, f) == IndexedForm(i)) && FieldTable(d, t, max, f) == t
      else
        && FieldTable(d, t, max, f) == (if mode.WithIndexing? then Insert(t, Entry(f.name, f.value, d.token(f.name)), max) else t)
        && if exists i: nat :: Names(d, t, i, f) then
             exists i: nat :: FirstName(d, t, i, f) && FieldBytes(d, t, max, f) == IndexedNameForm(i, f.value, mode)
           else FieldBytes(d, t, max, f) == NewNameForm(f.name, f.value, mode)
  {
    SearchIsBest(d, t, f, ChooseMode(d, f, max));
  }

  /** A field that was entered is written as one index the next time, and not entered again. */
  lemma RepeatIsIndexed(d: Dictionary, t: seq<Entry>, max: nat, f: Field)
    requires d.Valid() && d.Grouped() && AllNumbered(d, t) && TableSize(t) <= max
    requires ChooseMode(d, f, max).WithIndexing? && Room(|f.name|, |f.value|) <= max
    ensures
      var u := FieldTable(d, t, max, f);
      (exists i: nat :: FirstMatch(d, u, i, f) && FieldBytes(d, u, max, f) == IndexedForm(i)) && FieldTable(d, u, max, f) == u
  {
    var u := FieldTable(d, t, max, f);
    FieldTableValid(d, t, max, f);
    FieldIsBest(d, t, max, f);
    FieldIsBest(d, u, max, f);
    if !(exists i: nat :: Matches(d, t, i, f)) {
      InsertedIsFirst(t, Entry(f.name, f.value, d.token(f.name)), max);
      StaticPart(d, u, StaticLength, f);
      assert Matches(d, u, StaticLength, f);
    }
  }

  lemma InsertedIsFirst(t: seq<Entry>, e: Entry, max: nat)
    requires EntryRoom(e) <= max
    ensures Insert(t, e, max) != [] && Insert(t, e, max)[0] == e
  {}
}
