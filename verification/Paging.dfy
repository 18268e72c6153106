/** List arguments from a query, and the pages of a fixed ordered result. */
module Paging {
  import opened Text
  import Migrations

  const TWO_TO_THE_63: int := 0x8000_0000_0000_0000
  const TWO_TO_THE_64: int := 0x1_0000_0000_0000_0000
  const MAX_LIST_SIZE := 65500

  /** A result of int64 arithmetic. */
  function Int64(n: int): (m: int)
    ensures -TWO_TO_THE_63 <= m < TWO_TO_THE_63 && (m - n) % TWO_TO_THE_64 == 0
    ensures -TWO_TO_THE_63 <= n < TWO_TO_THE_63 ==> m == n
  {
    (n + TWO_TO_THE_63) % TWO_TO_THE_64 - TWO_TO_THE_63
  }

  // ---------- NewListArguments ----------

  /** strconv.ParseInt(v, 10, 0) and strconv.Atoi(v) with the error dropped: 0 for bad syntax, the nearest int64 out of range. */
  function ParseInt(v: string): (n: int)
    ensures -TWO_TO_THE_63 <= n < TWO_TO_THE_63
  {
    var digits := if v != "" && (v[0] == '+' || v[0] == '-') then v[1..] else v;
    if digits == "" || !AllDigits(digits) then 0
    else
      var n: int := DecimalValue(digits);
      if v[0] == '-' then (if n > TWO_TO_THE_63 then -TWO_TO_THE_63 else -n)
      else if n >= TWO_TO_THE_63 then TWO_TO_THE_63 - 1
      else n
  }

  function Clamped(n: int): int {
    if n < -TWO_TO_THE_63 then -TWO_TO_THE_63 else if n >= TWO_TO_THE_63 then TWO_TO_THE_63 - 1 else n
  }

  lemma UnsignedReads(digits: string)
    requires digits != "" && AllDigits(digits)
    ensures ParseInt(digits) == Clamped(DecimalValue(digits))
  {
    assert IsDigit(digits[0]);
  }

  lemma SignedReads(digits: string, v: string, sign: char)
    requires digits != "" && AllDigits(digits) && v == [sign] + digits && (sign == '+' || sign == '-')
    ensures ParseInt(v) == Clamped(if sign == '-' then 0 - DecimalValue(digits) else DecimalValue(digits))
  {
    assert v[0] == sign && v[1..] == digits;
  }

  /**
   * A number that is written in decimals, with or without a sign and zeros in front, is read as itself, or
   * as the nearest int64.
   */
  lemma ParseIntReads(n: nat, zeros: nat)
    ensures var digits := Zeros(zeros) + Migrations.Decimal(n);
            && ParseInt(digits) == ParseInt("+" + digits) == Clamped(n)
            && ParseInt("-" + digits) == Clamped(0 - n)
  {
    var digits := Zeros(zeros) + Migrations.Decimal(n);
    Migrations.ValueOfDecimal(n);
    PaddedValue(Migrations.Decimal(n), zeros);
    UnsignedReads(digits);
    SignedReads(digits, "+" + digits, '+');
    SignedReads(digits, "-" + digits, '-');
  }

  function Zeros(n: nat): (s: string)
    ensures |s| == n
  {
    if n == 0 then "" else "0" + Zeros(n - 1)
  }

  lemma {:induction false} PaddedValue(digits: string, zeros: nat)
    requires AllDigits(digits)
    ensures AllDigits(Zeros(zeros) + digits) && DecimalValue(Zeros(zeros) + digits) == DecimalValue(digits)
  {
    if zeros == 0 {
      assert Zeros(0) + digits == digits;
    } else {
      PaddedValue(digits, zeros - 1);
      LeadingZero(Zeros(zeros - 1) + digits);
      assert Zeros(zeros) + digits == "0" + (Zeros(zeros - 1) + digits);
    }
  }

  /** Anything else is read as zero. */
  lemma ParseIntRefuses(v: string)
    requires v == "" || !AllDigits(v[1..]) || (!IsDigit(v[0]) && (|v| == 1 || (v[0] != '+' && v[0] != '-')))
    ensures ParseInt(v) == 0
  {
    if v != "" && !AllDigits(v[1..]) {
      var i :| 0 <= i < |v[1..]| && !IsDigit(v[1..][i]);
      assert !IsDigit(v[i + 1]);
    }
  }

  /** The first values of the query's parameters; empty if absent. */
  datatype Query = Query(page: string, size: string, search: string, orderBy: string, fields: string)

  datatype ListArguments = ListArguments(page: int, size: int, search: string, orderBy: seq<string>, fields: seq<string>)

  /** The trimmed names that are not empty. */
  function Named(names: seq<string>): seq<string> {
    if names == [] then []
    else (if Trim(names[0]) == "" then [] else [Trim(names[0])]) + Named(names[1..])
  }

  function FieldsOf(fields: string): seq<string> {
    if Trim(fields) == "" then []
    else
      var named := Named(Split(Trim(fields), ','));
      if "id" in named then named else named + ["id"]
  }

  lemma {:induction false} NamedAreNames(names: seq<string>)
    ensures forall i :: 0 <= i < |Named(names)| ==> Named(names)[i] != "" && NoOuterBlanks(Named(names)[i])
    ensures forall name :: name in Named(names) <==> name != "" && exists i :: 0 <= i < |names| && Trim(names[i]) == name
  {
    if names != [] {
      NamedAreNames(names[1..]);
      TrimTwice(names[0]);
      assert forall i :: 0 <= i < |names[1..]| ==> names[1..][i] == names[i + 1];
      forall name ensures name in Named(names) <==> name != "" && exists i :: 0 <= i < |names| && Trim(names[i]) == name {
        if name in Named(names[1..]) {
          var i :| 0 <= i < |names[1..]| && Trim(names[1..][i]) == name;
          assert Trim(names[i + 1]) == name;
        }
        if i :| 0 < i < |names| && Trim(names[i]) == name { assert Trim(names[1..][i - 1]) == name; }
      }
    }
  }

  lemma {:induction false} NamedMore(names: seq<string>, name: string)
    ensures Named(names + [name]) == Named(names) + (if Trim(name) == "" then [] else [Trim(name)])
  {
    if names == [] {
      assert names + [name] == [name] && [name][1..] == [];
    } else {
      NamedMore(names[1..], name);
      assert (names + [name])[1..] == names[1..] + [name];
    }
  }

  /**
   * A field list always has the ID, and only trimmed names that are not empty; it begins with the requested
   * names in their order.
   */
  lemma FieldsHaveId(fields: string)
    ensures Trim(fields) != "" ==>
              var named := Named(Split(Trim(fields), ','));
              named <= FieldsOf(fields) && |FieldsOf(fields)| <= |named| + 1
    ensures Trim(fields) == "" ==> FieldsOf(fields) == []
    ensures Trim(fields) != "" ==> "id" in FieldsOf(fields)
    ensures forall i :: 0 <= i < |FieldsOf(fields)| ==> FieldsOf(fields)[i] != "" && NoOuterBlanks(FieldsOf(fields)[i])
  {
    NamedAreNames(Split(Trim(fields), ','));
  }

  method NewListArguments(params: Query) returns (args: ListArguments)
    ensures args.page == if Trim(params.page) == "" then 1 else ParseInt(Trim(params.page))
    ensures 0 <= args.size <= MAX_LIST_SIZE
    ensures var n := if Trim(params.size) == "" then 100 else ParseInt(Trim(params.size));
            args.size == if 0 <= n <= MAX_LIST_SIZE then n else MAX_LIST_SIZE
    ensures args.search == Trim(params.search)
    ensures args.orderBy == if Trim(params.orderBy) == "" then [] else Split(Trim(params.orderBy), ',')
    ensures args.fields == FieldsOf(params.fields)
  {
    args := ListArguments(1, 100, "", [], []);
    if Trim(params.page) != "" {
      args := args.(page := ParseInt(Trim(params.page)));
    }
    if Trim(params.size) != "" {
      args := args.(size := ParseInt(Trim(params.size)));
    }
    if args.size > MAX_LIST_SIZE || args.size < 0 {
      args := args.(size := MAX_LIST_SIZE);
    }
    if Trim(params.search) != "" {
      args := args.(search := Trim(params.search));
    }
    if Trim(params.orderBy) != "" {
      args := args.(orderBy := Split(Trim(params.orderBy), ','));
    }
    if Trim(params.fields) != "" {
      var fields := RequestedFields(Split(Trim(params.fields), ','));
      args := args.(fields := fields);
    }
  }

  /** The loop over the requested fields, which remembers whether the ID was among them. */
  method RequestedFields(names: seq<string>) returns (fields: seq<string>)
    ensures fields == if "id" in Named(names) then Named(names) else Named(names) + ["id"]
  {
    fields := [];
    var idNotPresent := true;
    for i := 0 to |names|
      invariant fields == Named(names[..i]) && (idNotPresent <==> "id" !in fields)
    {
      NamedMore(names[..i], names[i]);
      assert names[..i + 1] == names[..i] + [names[i]];
      var field := Trim(names[i]);
      if field == "" {
        continue;
      }
      if field == "id" {
        idNotPresent := false;
      }
      fields := fields + [field];
    }
    assert names[..|names|] == names;
    if idNotPresent {
      fields := fields + ["id"];
    }
  }

  // ---------- loadList ----------

  /** The database's answer to a query over these rows; a negative offset or limit is none. */
  function Fetch<Row>(rows: seq<Row>, offset: int, limit: int): seq<Row> {
    var from := if offset < 0 then 0 else if offset > |rows| then |rows| else offset;
    var to := if limit < 0 || from + limit > |rows| then |rows| else from + limit;
    rows[from..to]
  }

  function Offset(page: int, size: int): int {
    Int64(Int64(page - 1) * size)
  }

  function PageOf<Row>(rows: seq<Row>, page: int, size: int): seq<Row> {
    Fetch(rows, Offset(page, size), size)
  }

  datatype PagingMeta = PagingMeta(page: int, size: int, total: int)
  datatype Fault = NoFault | NotFound | Broken

  /** The list context's paging meta data and the caller's list. */
  class Listing<Row(==)> {
    var meta: PagingMeta
    var list: seq<Row>

    constructor (page: int)
      ensures meta == PagingMeta(page, 0, 0) && list == []
    {
      meta, list := PagingMeta(page, 0, 0), [];
    }

    method LoadList(args: ListArguments, rows: seq<Row>, fault: Fault) returns (ok: bool)
      modifies this
      ensures ok <==> args.size == 0 || fault != Broken
      ensures list == if args.size == 0 || fault != NoFault then [] else PageOf(rows, args.page, args.size)
      ensures meta == old(meta).(total := |rows|, size := if ok && args.size != 0 then |list| else old(meta).size)
    {
      meta := meta.(total := |rows|);
      list := [];
      if args.size == 0 {
        return true;
      }
      if fault != NoFault {
        if fault.NotFound? {
          meta := meta.(size := 0);
        } else {
          return false;
        }
      } else {
        list := Fetch(rows, Int64(Int64(args.page - 1) * args.size), args.size);
      }
      meta := meta.(size := |list|);
      return true;
    }
  }

  // ---------- pages ----------

  /** The number of pages that have rows. */
  function PageCount(total: nat, size: nat): (n: nat)
    requires size > 0
    ensures total <= n * size
    ensures n > 0 ==> (n - 1) * size < total
  {
    var n := (total + size - 1) / size;
    Division(total + size - 1, size);
    n
  }

  lemma Division(a: nat, b: nat)
    requires b > 0
    ensures (a / b) * b <= a < (a / b) * b + b
    ensures a / b > 0 ==> (a / b - 1) * b == (a / b) * b - b
  {
  }

  /** The first pages, one after the other, and the sum of the sizes that they report. */
  function FirstPages<Row>(rows: seq<Row>, size: nat, n: nat): seq<Row> {
    if n == 0 then [] else FirstPages(rows, size, n - 1) + PageOf(rows, n, size)
  }

  function SizesOf<Row>(rows: seq<Row>, size: nat, n: nat): nat {
    if n == 0 then 0 else SizesOf(rows, size, n - 1) + |PageOf(rows, n, size)|
  }

  /** The offset of a page does not overflow if its rows' numbers fit. */
  lemma OffsetFits(page: nat, size: nat)
    requires page > 0 && (page - 1) * size < TWO_TO_THE_63 && page <= TWO_TO_THE_63
    ensures Offset(page, size) == (page - 1) * size
  {
  }

  function UpTo(n: nat, total: nat): nat {
    if n < total then n else total
  }

  /** A page that begins before the end. */
  lemma PageIsSlice<Row>(rows: seq<Row>, size: nat, n: nat, from: nat)
    requires size > 0 && n > 0 && from == (n - 1) * size && from < |rows| < TWO_TO_THE_63
    ensures PageOf(rows, n, size) == rows[from..UpTo(from + size, |rows|)]
  {
    Product(1, size, n - 1);
    OffsetFits(n, size);
  }

  lemma {:induction false} FirstPagesArePrefix<Row>(rows: seq<Row>, size: nat, n: nat)
    requires size > 0 && |rows| < TWO_TO_THE_63 && (n > 0 ==> (n - 1) * size < |rows|)
    ensures FirstPages(rows, size, n) == rows[..UpTo(n * size, |rows|)]
    ensures SizesOf(rows, size, n) == |FirstPages(rows, size, n)|
  {
    if n > 0 {
      var from := (n - 1) * size;
      assert n * size == from + size;
      if n > 1 { Product(n - 2, n - 1, size); }
      FirstPagesArePrefix(rows, size, n - 1);
      PageIsSlice(rows, size, n, from);
      var to := UpTo(from + size, |rows|);
      assert rows[..from] + rows[from..to] == rows[..to];
    }
  }

  /** The pages of any size give every row once and in order, and their sizes add up to the total. */
  lemma PagesGiveAllRows<Row>(rows: seq<Row>, size: nat)
    requires 0 < size <= MAX_LIST_SIZE && |rows| < TWO_TO_THE_63
    ensures FirstPages(rows, size, PageCount(|rows|, size)) == rows
    ensures SizesOf(rows, size, PageCount(|rows|, size)) == |rows|
  {
    FirstPagesArePrefix(rows, size, PageCount(|rows|, size));
    assert rows[..|rows|] == rows;
  }

  /** A page is empty exactly if there are no rows or its offset, as int64 arithmetic computes it, is past them. */
  lemma PageIsEmptyIff<Row>(rows: seq<Row>, page: int, size: nat)
    requires 0 < size <= MAX_LIST_SIZE
    ensures PageOf(rows, page, size) == [] <==> rows == [] || Offset(page, size) >= |rows|
  {
    EmptyFetch(rows, Offset(page, size), size);
  }

  lemma EmptyFetch<Row>(rows: seq<Row>, offset: int, limit: nat)
    requires limit > 0
    ensures Fetch(rows, offset, limit) == [] <==> rows == [] || offset >= |rows|
  {
    var from := if offset < 0 then 0 else if offset > |rows| then |rows| else offset;
    assert |Fetch(rows, offset, limit)| == (if from + limit > |rows| then |rows| else from + limit) - from;
  }

  /** A page whose offset is not positive, as for page numbers below one, is the first page. */
  lemma EarlyPageIsFirst<Row>(rows: seq<Row>, page: int, size: nat)
    requires 0 < size <= MAX_LIST_SIZE && Offset(page, size) <= 0
    ensures PageOf(rows, page, size) == rows[..UpTo(size, |rows|)]
  {
    assert Fetch(rows, Offset(page, size), size) == rows[0..UpTo(size, |rows|)];
  }

  /** A later page is empty as long as its offset is an int64, as it is for every page up to 2^31. */
  lemma LaterPagesAreEmpty<Row>(rows: seq<Row>, page: nat, size: nat)
    requires 0 < size <= MAX_LIST_SIZE && page > PageCount(|rows|, size)
    requires page <= 0x8000_0000 || (page <= TWO_TO_THE_63 && (page - 1) * size < TWO_TO_THE_63)
    ensures PageOf(rows, page, size) == []
  {
    var n := PageCount(|rows|, size);
    Product(n, page - 1, size);
    if page <= 0x8000_0000 { Bounded(page - 1, size); }
    OffsetFits(page, size);
    PageIsEmptyIff(rows, page, size);
  }

  lemma Product(a: nat, b: nat, c: nat)
    requires a <= b
    ensures a * c <= b * c
  {
  }

  lemma Bounded(a: nat, size: nat)
    requires a < 0x8000_0000 && size <= MAX_LIST_SIZE
    ensures a * size < TWO_TO_THE_63
  {
    Product(a, 0x8000_0000, size);
  }

  /** Four rows to a page: a page far beyond the end whose offset wraps around is not empty but the first page. */
  lemma WrappedPageIsFirst<Row>(rows: seq<Row>)
    ensures PageOf(rows, 0x4000_0000_0000_0001, 4) == PageOf(rows, 1, 4)
    ensures rows != [] ==> PageOf(rows, 0x4000_0000_0000_0001, 4) != []
  {
    assert Offset(0x4000_0000_0000_0001, 4) == 0 == Offset(1, 4);
    PageIsEmptyIff(rows, 0x4000_0000_0000_0001, 4);
  }
}
