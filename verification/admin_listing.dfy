/** The admin panel's listing pipeline, as pure functions over the records it
    fetched: the free-text filter, the one-key sort, the sort-toggle rule of a
    column click, and pagination by pages of ten. */
module AdminListing {
  import opened Text
  import Sorting

  /** A field value of a fetched record. `Obj` is an array or object (such as
      an order's parsed items); `shown` is what its toString() gives. */
  datatype Value = Undefined | Null | Bool(b: bool) | Num(n: int) | Str(s: string) | Obj(shown: string)

  datatype Field = Field(name: string, value: Value)

  /** A record with its fields in the order Object.values lists them. */
  datatype Record = Record(fields: seq<Field>)

  datatype ListKind = ReservationList | OrderList

  /** Which column the list is sorted by and in which direction ("asc" or anything else). */
  datatype SortState = SortState(key: string, direction: string)

  const ItemsPerPage: nat := 10

  // ---------------------------------------------------------------- values

  /** JavaScript truthiness. */
  predicate Truthy(v: Value)
  {
    match v
    case Undefined => false
    case Null => false
    case Bool(b) => b
    case Num(n) => n != 0
    case Str(s) => s != ""
    case Obj(_) => true
  }

  /** typeof v === 'object'. */
  predicate IsObject(v: Value)
  {
    v.Null? || v.Obj?
  }

  /** v.toString(). */
  function Show(v: Value): string
  {
    match v
    case Undefined => "undefined"
    case Null => "null"
    case Bool(b) => if b then "true" else "false"
    case Num(n) => IntToString(n)
    case Str(s) => s
    case Obj(shown) => shown
  }

  /** record[key]: the value of the first field of that name, undefined if none. */
  function Get(r: Record, key: string): Value
  {
    FieldValue(r.fields, key)
  }

  function FieldValue(fields: seq<Field>, key: string): Value
  {
    if fields == [] then Undefined
    else if fields[0].name == key then fields[0].value
    else FieldValue(fields[1..], key)
  }

  // ---------------------------------------------------------------- filter

  /** One field value satisfies the filter text: it is truthy and its
      lower-cased text contains the lower-cased filter. The order list also
      skips object values. */
  predicate Hit(kind: ListKind, v: Value, needle: string)
  {
    && Truthy(v)
    && (kind == OrderList ==> !IsObject(v))
    && Contains(Lower(Show(v)), Lower(needle))
  }

  /** Object.values(record).some(...) */
  predicate AnyHit(kind: ListKind, fields: seq<Field>, needle: string)
  {
    fields != [] && (Hit(kind, fields[0].value, needle) || AnyHit(kind, fields[1..], needle))
  }

  predicate Matches(kind: ListKind, r: Record, needle: string)
  {
    AnyHit(kind, r.fields, needle)
  }

  /** records.filter(...): the matching records, in their original order. */
  function Filter(kind: ListKind, rs: seq<Record>, needle: string): (kept: seq<Record>)
    ensures forall r :: r in kept <==> r in rs && Matches(kind, r, needle)
    ensures |kept| <= |rs|
    ensures forall x :: multiset(kept)[x] == if Matches(kind, x, needle) then multiset(rs)[x] else 0
  {
    if rs == [] then []
    else
      var rest := Filter(kind, rs[1..], needle);
      assert rs == [rs[0]] + rs[1..];
      if Matches(kind, rs[0], needle) then [rs[0]] + rest else rest
  }

  /** a can be obtained from b by deleting elements. */
  ghost predicate Subsequence<T>(a: seq<T>, b: seq<T>)
    decreases |b|
  {
    a == [] || (b != [] && ((a[0] == b[0] && Subsequence(a[1..], b[1..])) || Subsequence(a, b[1..])))
  }

  /** The filter keeps the records in their original relative order. */
  lemma {:induction false} FilterIsSubsequence(kind: ListKind, rs: seq<Record>, needle: string)
    ensures Subsequence(Filter(kind, rs, needle), rs)
  {
    if rs != [] {
      FilterIsSubsequence(kind, rs[1..], needle);
      var rest := Filter(kind, rs[1..], needle);
      if Matches(kind, rs[0], needle) {
        assert ([rs[0]] + rest)[1..] == rest;
      }
    }
  }

  /** With an empty filter a reservation survives exactly when one of its
      fields is truthy; a record whose every field is falsy is dropped. */
  lemma {:induction false} EmptyFilterKeepsTruthy(fields: seq<Field>)
    ensures AnyHit(ReservationList, fields, "") <==> exists i :: 0 <= i < |fields| && Truthy(fields[i].value)
  {
    if fields != [] {
      ContainsEmpty(Lower(Show(fields[0].value)));
      assert Lower("") == "";
      EmptyFilterKeepsTruthy(fields[1..]);
      if exists i :: 0 <= i < |fields| && Truthy(fields[i].value) {
        var i :| 0 <= i < |fields| && Truthy(fields[i].value);
        if i > 0 {
          assert fields[1..][i - 1] == fields[i];
        }
      }
      if exists i :: 0 <= i < |fields[1..]| && Truthy(fields[1..][i].value) {
        var i :| 0 <= i < |fields[1..]| && Truthy(fields[1..][i].value);
        assert fields[i + 1] == fields[1..][i];
      }
    }
  }

  /** The record without its object-valued fields. */
  function WithoutObjects(fields: seq<Field>): (rest: seq<Field>)
    ensures forall f :: f in rest <==> f in fields && !IsObject(f.value)
  {
    if fields == [] then []
    else if IsObject(fields[0].value) then WithoutObjects(fields[1..])
    else [fields[0]] + WithoutObjects(fields[1..])
  }

  /** The order filter is the reservation filter applied to the record with
      its object fields removed: an order's items can never make it match. */
  lemma {:induction false} OrderFilterIgnoresObjects(fields: seq<Field>, needle: string)
    ensures AnyHit(OrderList, fields, needle) <==> AnyHit(ReservationList, WithoutObjects(fields), needle)
  {
    if fields != [] {
      OrderFilterIgnoresObjects(fields[1..], needle);
      if !IsObject(fields[0].value) {
        assert ([fields[0]] + WithoutObjects(fields[1..]))[1..] == WithoutObjects(fields[1..]);
      }
    }
  }

  // ---------------------------------------------------------------- sort

  /** String.prototype.localeCompare, stood in for by comparison of
      character codes: -1, 0 or 1. */
  function LexCompare(s: string, t: string): (c: int)
    ensures -1 <= c <= 1
    ensures c == 0 <==> s == t
  {
    if s == [] && t == [] then 0
    else if s == [] then -1
    else if t == [] then 1
    else if s[0] < t[0] then -1
    else if s[0] > t[0] then 1
    else
      var c := LexCompare(s[1..], t[1..]);
      assert s == [s[0]] + s[1..] && t == [t[0]] + t[1..];
      c
  }

  lemma {:induction false} LexCompareFlip(s: string, t: string)
    ensures LexCompare(t, s) == -LexCompare(s, t)
  {
    if s != [] && t != [] && s[0] == t[0] {
      LexCompareFlip(s[1..], t[1..]);
    }
  }

  lemma {:induction false} LexCompareTransitive(s: string, t: string, u: string)
    requires LexCompare(s, t) <= 0 && LexCompare(t, u) <= 0
    ensures LexCompare(s, u) <= 0
  {
    if s != [] && t != [] && u != [] && s[0] == t[0] && t[0] == u[0] {
      LexCompareTransitive(s[1..], t[1..], u[1..]);
    }
  }

  /** Number(v), None standing for NaN. Strings convert when, trimmed, they
      are empty (0) or a digit string with an optional sign. */
  function ToNumber(v: Value): Option<int>
  {
    match v
    case Undefined => None
    case Null => Some(0)
    case Bool(b) => Some(if b then 1 else 0)
    case Num(n) => Some(n)
    case Str(s) =>
      var t := Trim(s);
      if t == "" then Some(0)
      else if AllDigits(t) then Some(DigitsValue(t))
      else if t[0] == '+' && |t| > 1 && AllDigits(t[1..]) then Some(DigitsValue(t[1..]))
      else if t[0] == '-' && |t| > 1 && AllDigits(t[1..]) then Some(-(DigitsValue(t[1..]) as int))
      else None
    case Obj(_) => None
  }

  /** A digit string converts to its value. */
  lemma ToNumberDigits(d: string)
    requires d != [] && AllDigits(d)
    ensures ToNumber(Str(d)) == Some(DigitsValue(d))
  {
    assert !IsSpace(d[0]) && !IsSpace(d[|d| - 1]);
    TrimUnspaced(d);
  }

  /** A digit string behind a sign converts to its value, negated for '-'. */
  lemma ToNumberSigned(t: string)
    requires |t| > 1 && (t[0] == '+' || t[0] == '-') && AllDigits(t[1..])
    ensures ToNumber(Str(t)) == Some(if t[0] == '-' then -(DigitsValue(t[1..]) as int) else DigitsValue(t[1..]))
  {
    assert t[|t| - 1] == t[1..][|t| - 2];
    assert !IsSpace(t[0]) && !IsSpace(t[|t| - 1]);
    TrimUnspaced(t);
    assert !IsDigit(t[0]);
  }

  /** A decimal fraction d.f is NaN in this model (JavaScript gives a
      non-integer number, which is left out). */
  lemma ToNumberFraction(d: string, f: string)
    requires d != [] && AllDigits(d) && f != [] && AllDigits(f)
    ensures ToNumber(Str(d + "." + f)).None?
  {
    var t := d + "." + f;
    assert t[0] == d[0] && t[|t| - 1] == f[|f| - 1];
    assert !IsSpace(d[0]) && !IsSpace(f[|f| - 1]);
    TrimUnspaced(t);
    assert t[|d|] == '.';
  }

  /** a - b on numbers; a NaN difference is read by the sort as 0. */
  function Difference(a: Option<int>, b: Option<int>): int
  {
    if a.Some? && b.Some? then a.value - b.value else 0
  }

  /** The comparator sortData hands to Array.prototype.sort. `toTime` is
      `new Date(v)` as a timestamp, None standing for an invalid date. */
  function Compare(key: string, direction: string, toTime: Value -> Option<int>, a: Record, b: Record): int
  {
    var valA := Get(a, key);
    var valB := Get(b, key);
    if key == "date" || key == "created_at" then
      if direction == "asc" then Difference(toTime(valA), toTime(valB))
      else Difference(toTime(valB), toTime(valA))
    else if valA.Str? && valB.Str? then
      if direction == "asc" then LexCompare(valA.s, valB.s) else LexCompare(valB.s, valA.s)
    else
      if direction == "asc" then Difference(ToNumber(valA), ToNumber(valB))
      else Difference(ToNumber(valB), ToNumber(valA))
  }

  function Comparator(key: string, direction: string, toTime: Value -> Option<int>): (Record, Record) -> int
  {
    (a, b) => Compare(key, direction, toTime, a, b)
  }

  /** sortData: a sorted copy; the input sequence itself is a value and stays as it was. */
  function SortData(data: seq<Record>, key: string, direction: string, toTime: Value -> Option<int>): (sorted: seq<Record>)
    ensures multiset(sorted) == multiset(data)
    ensures |sorted| == |data| && forall r :: r in sorted <==> r in data
  {
    Sorting.SortSameElements(data, Comparator(key, direction, toTime));
    Sorting.Sort(data, Comparator(key, direction, toTime))
  }

  ghost function Elements(s: seq<Record>): set<Record>
  {
    set r | r in s
  }

  /** Sorting by a date column orders the records chronologically, ascending
      for "asc" and descending for any other direction. */
  lemma SortChronological(data: seq<Record>, key: string, direction: string, toTime: Value -> Option<int>)
    requires key == "date" || key == "created_at"
    requires forall r :: r in data ==> toTime(Get(r, key)).Some?
    ensures var sorted := SortData(data, key, direction, toTime);
      forall i, j :: 0 <= i < j < |sorted| ==>
        var ti := toTime(Get(sorted[i], key)).value;
        var tj := toTime(Get(sorted[j], key)).value;
        if direction == "asc" then ti <= tj else ti >= tj
  {
    var cmp := Comparator(key, direction, toTime);
    var elems := Elements(data);
    Sorting.SortSorted(data, cmp, elems);
    var sorted := SortData(data, key, direction, toTime);
    forall i, j | 0 <= i < j < |sorted|
      ensures var ti := toTime(Get(sorted[i], key)).value;
              var tj := toTime(Get(sorted[j], key)).value;
              if direction == "asc" then ti <= tj else ti >= tj
    {
      assert sorted[i] in data && sorted[j] in data;
      assert cmp(sorted[i], sorted[j]) <= 0;
    }
  }

  /** Sorting by a column whose values are all strings orders them by the
      string comparison, reversed for any direction other than "asc". */
  lemma SortLexicographic(data: seq<Record>, key: string, direction: string, toTime: Value -> Option<int>)
    requires key != "date" && key != "created_at"
    requires forall r :: r in data ==> Get(r, key).Str?
    ensures var sorted := SortData(data, key, direction, toTime);
      forall i, j :: 0 <= i < j < |sorted| ==>
        var si := Get(sorted[i], key).s;
        var sj := Get(sorted[j], key).s;
        if direction == "asc" then LexCompare(si, sj) <= 0 else LexCompare(sj, si) <= 0
  {
    var cmp := Comparator(key, direction, toTime);
    var elems := Elements(data);
    forall x, y | x in elems && y in elems ensures cmp(y, x) == -cmp(x, y) {
      LexCompareFlip(Get(x, key).s, Get(y, key).s);
    }
    forall x, y, z | x in elems && y in elems && z in elems && cmp(x, y) <= 0 && cmp(y, z) <= 0
      ensures cmp(x, z) <= 0
    {
      var sx, sy, sz := Get(x, key).s, Get(y, key).s, Get(z, key).s;
      if direction == "asc" {
        LexCompareTransitive(sx, sy, sz);
      } else {
        LexCompareTransitive(sz, sy, sx);
      }
    }
    Sorting.SortSorted(data, cmp, elems);
    var sorted := SortData(data, key, direction, toTime);
    forall i, j | 0 <= i < j < |sorted|
      ensures var si := Get(sorted[i], key).s;
              var sj := Get(sorted[j], key).s;
              if direction == "asc" then LexCompare(si, sj) <= 0 else LexCompare(sj, si) <= 0
    {
      assert sorted[i] in data && sorted[j] in data;
      assert cmp(sorted[i], sorted[j]) <= 0;
    }
  }

  /** Sorting by a column of numbers (no strings among them) orders the
      records numerically, reversed for any direction other than "asc". */
  lemma SortNumeric(data: seq<Record>, key: string, direction: string, toTime: Value -> Option<int>)
    requires key != "date" && key != "created_at"
    requires forall r :: r in data ==> !Get(r, key).Str? && ToNumber(Get(r, key)).Some?
    ensures var sorted := SortData(data, key, direction, toTime);
      forall i, j :: 0 <= i < j < |sorted| ==>
        var ni := ToNumber(Get(sorted[i], key)).value;
        var nj := ToNumber(Get(sorted[j], key)).value;
        if direction == "asc" then ni <= nj else ni >= nj
  {
    var cmp := Comparator(key, direction, toTime);
    var elems := Elements(data);
    Sorting.SortSorted(data, cmp, elems);
    var sorted := SortData(data, key, direction, toTime);
    forall i, j | 0 <= i < j < |sorted|
      ensures var ni := ToNumber(Get(sorted[i], key)).value;
              var nj := ToNumber(Get(sorted[j], key)).value;
              if direction == "asc" then ni <= nj else ni >= nj
    {
      assert sorted[i] in data && sorted[j] in data;
      assert cmp(sorted[i], sorted[j]) <= 0;
    }
  }

  /** A click on a column: the list is now sorted by that column, descending
      exactly when it was already sorted by it ascending. */
  function Toggle(prev: SortState, key: string): (next: SortState)
    ensures next.key == key
    ensures next.direction == "desc" <==> prev.key == key && prev.direction == "asc"
    ensures next.direction == "asc" <==> !(prev.key == key && prev.direction == "asc")
  {
    SortState(key, if prev.key == key && prev.direction == "asc" then "desc" else "asc")
  }

  /** Clicking the same column again always flips the direction. */
  lemma ToggleAgainFlips(prev: SortState, key: string)
    ensures Toggle(Toggle(prev, key), key).direction != Toggle(prev, key).direction
  {
  }

  // ---------------------------------------------------------------- pages

  /** How Array.prototype.slice reads an index: negative counts from the end,
      and the result is clamped into [0, len]. */
  function SliceIndex(k: int, len: nat): (i: nat)
    ensures i <= len
    ensures 0 <= k <= len ==> i == k
    ensures k > len ==> i == len
  {
    if k < 0 then (if len + k < 0 then 0 else len + k)
    else if k > len then len
    else k
  }

  function Slice<T>(s: seq<T>, start: int, end: int): seq<T>
  {
    var a := SliceIndex(start, |s|);
    var b := SliceIndex(end, |s|);
    if a < b then s[a..b] else []
  }

  /** The items shown on page `page`: slice(page*10 - 10, page*10). */
  function Page<T>(s: seq<T>, page: int): seq<T>
  {
    var last := page * ItemsPerPage;
    var first := last - ItemsPerPage;
    Slice(s, first, last)
  }

  function Min(a: int, b: int): int { if a <= b then a else b }

  /** Math.ceil(n / 10): the fewest pages of ten that hold n items. */
  function NumPages(n: nat): (pages: nat)
    ensures pages * ItemsPerPage >= n
    ensures pages == 0 || (pages - 1) * ItemsPerPage < n
  {
    (n + ItemsPerPage - 1) / ItemsPerPage
  }

  /** Page p >= 1 holds the elements from (p-1)*10 up to p*10, cut at the end
      of the list: never more than ten. */
  lemma PageContents<T>(s: seq<T>, page: int)
    requires page >= 1
    ensures var first := Min((page - 1) * ItemsPerPage, |s|);
            var last := Min(page * ItemsPerPage, |s|);
            Page(s, page) == s[first..last]
    ensures |Page(s, page)| <= ItemsPerPage
  {
  }

  /** A page past the last one is empty. */
  lemma PageBeyondLast<T>(s: seq<T>, page: int)
    requires page > NumPages(|s|)
    ensures Page(s, page) == []
  {
    assert (page - 1) * ItemsPerPage >= NumPages(|s|) * ItemsPerPage;
  }

  /** Pages 1..k laid end to end. */
  function PagesUpTo<T>(s: seq<T>, k: nat): seq<T>
  {
    if k == 0 then [] else PagesUpTo(s, k - 1) + Page(s, k)
  }

  lemma {:induction false} PagesUpToPrefix<T>(s: seq<T>, k: nat)
    ensures PagesUpTo(s, k) == s[..Min(k * ItemsPerPage, |s|)]
  {
    if k > 0 {
      PagesUpToPrefix(s, k - 1);
      PageContents(s, k);
      var a := Min((k - 1) * ItemsPerPage, |s|);
      var b := Min(k * ItemsPerPage, |s|);
      assert s[..a] + s[a..b] == s[..b];
    }
  }

  /** Pages 1 to the page count, laid end to end, are the whole list: every
      item appears on exactly one page, in order. */
  lemma PagesCoverAll<T>(s: seq<T>)
    ensures PagesUpTo(s, NumPages(|s|)) == s
  {
    PagesUpToPrefix(s, NumPages(|s|));
    assert s[..|s|] == s;
  }

  /** The Prev control is disabled on the first page. */
  predicate PrevDisabled(page: int)
  {
    page == 1
  }

  /** The Next control is disabled when the page equals the number of page buttons. */
  predicate NextDisabled(page: int, pageButtons: int)
  {
    page == pageButtons
  }

  /** With no matching items there are no page buttons, so on page 1 Next stays enabled. */
  lemma NoResultsNextEnabled()
    ensures NumPages(0) == 0 && !NextDisabled(1, NumPages(0))
  {
  }
}
