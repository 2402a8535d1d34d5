/**
 * The sales service: create, read, update and delete of sales with branch
 * scoping, and the paged listing. The sales table is a sequence of records in
 * storage order; a well-formed table has non-blank, pairwise distinct ids.
 */
module SalesService {
  import opened Base
  import opened JavaString
  import opened Numerals
  import opened Entities
  import opened Errors
  import opened Validation
  import opened Aggregation

  /** The response body for one sale: the eight stored fields. */
  datatype SaleResponse = SaleResponse(
    id: Option<string>,
    sku: string,
    units: int,
    priceCents: int,
    branch: string,
    soldAt: Instant,
    createdBy: string,
    createdAt: Option<Instant>)

  /** The sale a response describes. */
  function FromDto(d: SaleResponse): Sale {
    Sale(d.id, d.sku, d.units, d.priceCents, d.branch, d.soldAt, d.createdBy, d.createdAt)
  }

  /** `toDto`: nothing is lost, the sale is recovered from its response. */
  function ToDto(s: Sale): (r: SaleResponse)
    ensures FromDto(r) == s
  {
    SaleResponse(s.id, s.sku, s.units, s.priceCents, s.branch, s.soldAt, s.createdBy, s.createdAt)
  }

  /** Distinct sales give distinct responses. */
  lemma ToDtoInjective(a: Sale, b: Sale)
    requires ToDto(a) == ToDto(b)
    ensures a == b
  {
    assert a == FromDto(ToDto(a));
  }

  /** The responses of a list of sales, in order. */
  function Dtos(ss: seq<Sale>): (r: seq<SaleResponse>)
    ensures |r| == |ss|
    ensures forall i :: 0 <= i < |r| ==> FromDto(r[i]) == ss[i]
  {
    seq(|ss|, i requires 0 <= i < |ss| => ToDto(ss[i]))
  }

  /** Every stored sale has a non-blank id and no id occurs twice. */
  predicate WellFormed(table: seq<Sale>) {
    && (forall i :: 0 <= i < |table| ==> !NullOrBlank(table[i].id))
    && (forall i, j :: 0 <= i < j < |table| ==> table[i].id != table[j].id)
  }

  /** `findById`: the position of the sale stored under `id`. */
  function FindSale(table: seq<Sale>, id: string): (r: Option<nat>)
    ensures r.Some? ==> r.value < |table| && table[r.value].id == Some(id)
    ensures r.Some? ==> forall k :: 0 <= k < r.value ==> table[k].id != Some(id)
    ensures r.None? <==> forall i :: 0 <= i < |table| ==> table[i].id != Some(id)
  {
    if table == [] then None
    else if table[0].id == Some(id) then Some(0)
    else match FindSale(table[1..], id)
      case None => None
      case Some(k) => Some(k + 1)
  }

  /** In a well-formed table the position of an id is the only one holding it. */
  lemma FindSaleUnique(table: seq<Sale>, id: string, i: nat)
    requires WellFormed(table)
    requires i < |table| && table[i].id == Some(id)
    ensures FindSale(table, id) == Some(i)
  {
  }

  /** A failure of the store itself; the driver's message text is not modelled. */
  const StoreFailure := Error(Internal, None)

  /** The branch-mismatch guard of `createSale`. */
  predicate CreateForbidden(req: SaleRequest, role: Option<string>, userBranch: Option<string>) {
    HasRole(role, BRANCH) && (req.branch.None? || req.branch != userBranch)
  }

  /** The request supplies every column the table declares NOT NULL. */
  predicate Complete(req: SaleRequest) {
    req.sku.Some? && req.branch.Some? && req.soldAt.Some?
  }

  /** The sale a complete request describes, before the store assigns id and creation time. */
  function NewSale(req: SaleRequest, createdBy: string): Sale
    requires Complete(req)
  {
    Sale(None, req.sku.value, req.units, req.priceCents, req.branch.value, req.soldAt.value, createdBy, None)
  }

  /**
   * `createSale`: a BRANCH caller may only create sales for their own branch;
   * the new sale carries the request's fields, the caller as creator, a
   * generated id and the current time, and is appended to the table.
   */
  function CreateSale(table: seq<Sale>, req: SaleRequest, username: Option<string>, role: Option<string>,
                      userBranch: Option<string>, uuid: string, now: Instant): (r: Result<(seq<Sale>, SaleResponse)>)
    ensures CreateForbidden(req, role, userBranch) ==> r == Throw(Forbidden, "branch mismatch")
    ensures r.Err? ==> r.error.kind in {Forbidden, Internal}
    ensures r.Ok? ==>
      && |r.value.0| == |table| + 1 && r.value.0[..|table|] == table
      && var s := r.value.0[|table|];
      && r.value.1 == ToDto(s)
      && Some(s.sku) == req.sku && s.units == req.units && s.priceCents == req.priceCents
      && Some(s.branch) == req.branch && Some(s.soldAt) == req.soldAt
      && Some(s.createdBy) == username
      && s.id == Some(GeneratedId("s_", uuid)) && s.createdAt == Some(now)
    ensures r.Ok? && HasRole(role, BRANCH) ==> Some(r.value.1.branch) == userBranch
    ensures WellFormed(table) && r.Ok? ==> WellFormed(r.value.0)
    ensures (!CreateForbidden(req, role, userBranch) && Complete(req) && username.Some?
             && FindSale(table, GeneratedId("s_", uuid)).None?) ==> r.Ok?
  {
    if CreateForbidden(req, role, userBranch) then Throw(Forbidden, "branch mismatch")
    else if !Complete(req) || username.None? then Err(StoreFailure)
    else
      var saved := SalePrePersist(NewSale(req, username.value), uuid, now);
      if FindSale(table, saved.id.value).Some? then Err(StoreFailure)
      else Ok((table + [saved], ToDto(saved)))
  }

  /** The guard of `getSale` and `updateSale` once the sale is found. */
  predicate ReadForbidden(s: Sale, role: Option<string>, userBranch: Option<string>) {
    HasRole(role, BRANCH) && Some(s.branch) != userBranch
  }

  /** `getSale`: not found, forbidden for another branch's BRANCH user, or the stored sale. */
  function GetSale(table: seq<Sale>, id: string, role: Option<string>, userBranch: Option<string>): (r: Result<SaleResponse>)
    ensures FindSale(table, id).None? <==> r == Throw(NotFound, "sale not found")
    ensures r.Ok? ==> FromDto(r.value) in table && r.value.id == Some(id)
    ensures r.Ok? && HasRole(role, BRANCH) ==> Some(r.value.branch) == userBranch
    ensures r.Err? ==> r.error.kind in {NotFound, Forbidden}
    ensures forall i :: 0 <= i < |table| && table[i].id == Some(id) && WellFormed(table) ==>
      (r == Throw(Forbidden, "forbidden") <==> ReadForbidden(table[i], role, userBranch))
    ensures FindSale(table, id).Some? && !ReadForbidden(table[FindSale(table, id).value], role, userBranch) ==>
      r == Ok(ToDto(table[FindSale(table, id).value]))
  {
    match FindSale(table, id)
    case None => Throw(NotFound, "sale not found")
    case Some(i) =>
      if ReadForbidden(table[i], role, userBranch) then Throw(Forbidden, "forbidden")
      else Ok(ToDto(table[i]))
  }

  /** The stored sale with the five business fields overwritten from a complete request. */
  function Overwrite(s: Sale, req: SaleRequest): Sale
    requires Complete(req)
  {
    s.(sku := req.sku.value, units := req.units, priceCents := req.priceCents,
       branch := req.branch.value, soldAt := req.soldAt.value)
  }

  /**
   * `updateSale`: the same not-found and forbidden checks as `getSale`, then
   * sku, units, price, branch and sold-at are replaced in place; id, creator
   * and creation time are kept. The new branch is not checked.
   */
  function UpdateSale(table: seq<Sale>, id: string, req: SaleRequest, role: Option<string>,
                      userBranch: Option<string>): (r: Result<(seq<Sale>, SaleResponse)>)
    ensures FindSale(table, id).None? ==> r == Throw(NotFound, "sale not found")
    ensures FindSale(table, id).Some? && ReadForbidden(table[FindSale(table, id).value], role, userBranch)
            ==> r == Throw(Forbidden, "forbidden")
    ensures r.Ok? ==>
      && FindSale(table, id).Some?
      && var i := FindSale(table, id).value;
      && |r.value.0| == |table|
      && (forall k :: 0 <= k < |table| && k != i ==> r.value.0[k] == table[k])
      && var s := r.value.0[i];
      && s.id == table[i].id && s.createdBy == table[i].createdBy && s.createdAt == table[i].createdAt
      && Some(s.sku) == req.sku && s.units == req.units && s.priceCents == req.priceCents
      && Some(s.branch) == req.branch && Some(s.soldAt) == req.soldAt
      && r.value.1 == ToDto(s)
    ensures WellFormed(table) && r.Ok? ==> WellFormed(r.value.0)
    ensures (FindSale(table, id).Some? && !ReadForbidden(table[FindSale(table, id).value], role, userBranch)
             && Complete(req)) ==> r.Ok?
  {
    match FindSale(table, id)
    case None => Throw(NotFound, "sale not found")
    case Some(i) =>
      if ReadForbidden(table[i], role, userBranch) then Throw(Forbidden, "forbidden")
      else if !Complete(req) then Err(StoreFailure)
      else
        var s := Overwrite(table[i], req);
        Ok((table[i := s], ToDto(s)))
  }

  /** The table without the sales stored under `id`, others in order. */
  function RemoveId(table: seq<Sale>, id: string): (r: seq<Sale>)
    ensures forall s :: s in r <==> s in table && s.id != Some(id)
    ensures |r| <= |table|
  {
    if table == [] then []
    else (if table[0].id == Some(id) then [] else [table[0]]) + RemoveId(table[1..], id)
  }

  /** Deletion works piece by piece: the result for `a + b` is the result for `a`, then for `b`. */
  lemma {:induction false} RemoveIdAppend(a: seq<Sale>, b: seq<Sale>, id: string)
    ensures RemoveId(a + b, id) == RemoveId(a, id) + RemoveId(b, id)
    decreases |a|
  {
    if a == [] {
      assert a + b == b;
    } else {
      var h := if a[0].id == Some(id) then [] else [a[0]];
      var t := a[1..] + b;
      assert a + b != [] && (a + b)[0] == a[0] && (a + b)[1..] == t;
      assert RemoveId(a + b, id) == h + RemoveId(t, id);
      RemoveIdAppend(a[1..], b, id);
      var x, y := RemoveId(a[1..], id), RemoveId(b, id);
      assert RemoveId(a, id) == h + x;
      ConcatAssoc(h, x, y);
    }
  }

  /** On one sale: dropped exactly when it carries the id. */
  lemma RemoveIdSingle(s: Sale, id: string)
    ensures RemoveId([s], id) == if s.id == Some(id) then [] else [s]
  {
    assert [s][1..] == [];
  }

  /** The tail of a well-formed table is well formed, and its ids differ from the head's. */
  lemma WellFormedTail(table: seq<Sale>)
    requires WellFormed(table) && table != []
    ensures WellFormed(table[1..]) && !NullOrBlank(table[0].id)
    ensures forall s :: s in table[1..] ==> s.id != table[0].id
  {
    var rest := table[1..];
    forall i, j | 0 <= i < j < |rest| ensures rest[i].id != rest[j].id {
      assert rest[i] == table[i + 1] && rest[j] == table[j + 1];
    }
    forall s | s in rest ensures s.id != table[0].id {
      var k :| 0 <= k < |rest| && rest[k] == s;
      assert rest[k] == table[k + 1];
    }
  }

  /** A sale with a fresh, non-blank id in front of a well-formed table. */
  lemma WellFormedCons(s: Sale, table: seq<Sale>)
    requires WellFormed(table) && !NullOrBlank(s.id)
    requires forall t :: t in table ==> t.id != s.id
    ensures WellFormed([s] + table)
  {
    var r := [s] + table;
    forall j | 0 < j < |r| ensures r[0].id != r[j].id {
      assert r[j] == table[j - 1];
    }
    forall i, j | 0 < i < j < |r| ensures r[i].id != r[j].id {
      assert r[i] == table[i - 1] && r[j] == table[j - 1];
    }
  }

  /** Removing sales keeps the ids of the rest distinct. */
  lemma {:induction false} RemoveIdWellFormed(table: seq<Sale>, id: string)
    requires WellFormed(table)
    ensures WellFormed(RemoveId(table, id))
  {
    if table != [] {
      WellFormedTail(table);
      RemoveIdWellFormed(table[1..], id);
      if table[0].id != Some(id) {
        WellFormedCons(table[0], RemoveId(table[1..], id));
      }
    }
  }

  /** `deleteSale`: only the CENTRAL role may delete; a missing id is not an error. */
  function DeleteSale(table: seq<Sale>, id: string, role: Option<string>): (r: Result<seq<Sale>>)
    ensures !HasRole(role, CENTRAL) <==> r == Throw(Forbidden, "only central can delete")
    ensures r.Ok? ==> FindSale(r.value, id).None?
    ensures r.Ok? ==> forall s :: s in r.value <==> s in table && s.id != Some(id)
    ensures WellFormed(table) && r.Ok? ==> WellFormed(r.value)
    ensures HasRole(role, CENTRAL) ==> r == Ok(RemoveId(table, id))
  {
    if !HasRole(role, CENTRAL) then Throw(Forbidden, "only central can delete")
    else
      if WellFormed(table) then RemoveIdWellFormed(table, id); Ok(RemoveId(table, id))
      else Ok(RemoveId(table, id))
  }

  /** A created sale is found again by its id, by its creator or by CENTRAL. */
  lemma CreateThenGet(table: seq<Sale>, req: SaleRequest, username: Option<string>, role: Option<string>,
                      userBranch: Option<string>, uuid: string, now: Instant)
    requires WellFormed(table)
    requires CreateSale(table, req, username, role, userBranch, uuid, now).Ok?
    ensures var (t, d) := CreateSale(table, req, username, role, userBranch, uuid, now).value;
      GetSale(t, GeneratedId("s_", uuid), role, userBranch) == Ok(d)
  {
    var (t, d) := CreateSale(table, req, username, role, userBranch, uuid, now).value;
    FindSaleUnique(t, GeneratedId("s_", uuid), |table|);
  }

  /** A deleted sale is gone for every caller. */
  lemma DeleteThenGet(table: seq<Sale>, id: string, role: Option<string>, userBranch: Option<string>)
    requires DeleteSale(table, id, Some("CENTRAL")).Ok?
    ensures GetSale(DeleteSale(table, id, Some("CENTRAL")).value, id, role, userBranch) == Throw(NotFound, "sale not found")
  {
  }

  /** Two tables with the same ids at the same positions find an id at the same position. */
  lemma FindSameIds(a: seq<Sale>, b: seq<Sale>, id: string)
    requires |a| == |b| && forall k :: 0 <= k < |a| ==> a[k].id == b[k].id
    ensures FindSale(a, id) == FindSale(b, id)
  {
    var fa, fb := FindSale(a, id), FindSale(b, id);
    if fa.Some? && fb.Some? {
      assert !(fa.value < fb.value) && !(fb.value < fa.value);
    }
  }

  /**
   * A BRANCH user allowed to update a sale of their branch may move it to any
   * other branch, and then can no longer read it.
   */
  lemma BranchUserCanMoveSale(table: seq<Sale>, id: string, req: SaleRequest, userBranch: string)
    requires FindSale(table, id).Some? && table[FindSale(table, id).value].branch == userBranch
    requires Complete(req) && req.branch != Some(userBranch)
    ensures UpdateSale(table, id, req, Some("BRANCH"), Some(userBranch)).Ok?
    ensures UpdateSale(table, id, req, Some("BRANCH"), Some(userBranch)).value.1.branch != userBranch
    ensures GetSale(UpdateSale(table, id, req, Some("BRANCH"), Some(userBranch)).value.0, id, Some("BRANCH"), Some(userBranch))
            == Throw(Forbidden, "forbidden")
  {
    var moved := UpdateSale(table, id, req, Some("BRANCH"), Some(userBranch)).value.0;
    FindSameIds(table, moved, id);
  }

  // ---------------------------------------------------------------------------
  // Paging

  const TwoTo31: int := 0x8000_0000
  const TwoTo32: int := 0x1_0000_0000

  /** A page request as `PageRequest.of` accepts it: Java ints, page >= 0, size >= 1. */
  datatype PageRequest = PageRequest(page: int, size: int)

  type Pageable = p: PageRequest | 0 <= p.page < TwoTo31 && 1 <= p.size < TwoTo31 witness PageRequest(0, 1)

  /** `getOffset()`: page times size, as a Java long (it cannot overflow). */
  function Offset(p: Pageable): nat {
    p.page * p.size
  }

  function Min(a: int, b: int): int {
    if a <= b then a else b
  }

  /** A cast to `int`: the low 32 bits of the value, read as two's complement. */
  function ToInt32(x: int): (r: int)
    ensures -TwoTo31 <= r < TwoTo31
    ensures exists k :: x == r + k * TwoTo32
    ensures -TwoTo31 <= x < TwoTo31 ==> r == x
  {
    var r := (x + TwoTo31) % TwoTo32 - TwoTo31;
    assert x == r + ((x + TwoTo31) / TwoTo32) * TwoTo32;
    r
  }

  /**
   * One page of `sales`: the elements from the offset on, at most `size` of
   * them, and none when the offset is past the end.
   */
  function PageSlice(sales: seq<Sale>, p: Pageable): (r: seq<Sale>)
    ensures |r| <= p.size
    ensures |r| == if Offset(p) >= |sales| then 0 else Min(p.size, |sales| - Offset(p))
    ensures forall i :: 0 <= i < |r| ==> Offset(p) + i < |sales| && r[i] == sales[Offset(p) + i]
  {
    if Offset(p) >= |sales| then [] else sales[Offset(p)..Min(Offset(p) + p.size, |sales|)]
  }

  /** The responses on a page are the sales from the offset on, so each is one of the sales. */
  lemma PageContent(sales: seq<Sale>, p: Pageable)
    ensures var c := Dtos(PageSlice(sales, p));
      forall i :: 0 <= i < |c| ==> FromDto(c[i]) == sales[Offset(p) + i] && FromDto(c[i]) in sales
  {
  }

  /** `PageImpl`'s total: corrected upwards when a non-empty last page ends past `total`. */
  function PageTotal(contentSize: nat, p: Pageable, total: int): int {
    if contentSize > 0 && Offset(p) + p.size > total then Offset(p) + contentSize else total
  }

  /** For a correct slice `PageImpl` keeps the count it is given. */
  lemma PageSliceTotal(sales: seq<Sale>, p: Pageable)
    ensures PageTotal(|PageSlice(sales, p)|, p, |sales|) == |sales|
  {
  }

  /** The first `k` pages of size `z`, concatenated. */
  function FirstPages(sales: seq<Sale>, z: int, k: nat): seq<Sale>
    requires 1 <= z < TwoTo31 && k <= TwoTo31
  {
    if k == 0 then [] else FirstPages(sales, z, k - 1) + PageSlice(sales, PageRequest(k - 1, z))
  }

  /** A page extends the prefix that ends at its offset. */
  lemma PageStep(sales: seq<Sale>, p: Pageable)
    ensures sales[..Min(Offset(p), |sales|)] + PageSlice(sales, p) == sales[..Min(Offset(p) + p.size, |sales|)]
  {
    if Offset(p) < |sales| {
      assert PageSlice(sales, p) == sales[Offset(p)..Min(Offset(p) + p.size, |sales|)];
    }
  }

  lemma MulStep(k: int, z: int)
    ensures (k - 1) * z + z == k * z
  {
  }

  /** Reading pages 0, 1, ..., k-1 returns the first k*z sales in order, without gaps or repeats. */
  lemma {:induction false} PagesCover(sales: seq<Sale>, z: int, k: nat)
    requires 1 <= z < TwoTo31 && k <= TwoTo31
    ensures FirstPages(sales, z, k) == sales[..Min(k * z, |sales|)]
  {
    if k > 0 {
      PagesCover(sales, z, k - 1);
      var p: Pageable := PageRequest(k - 1, z);
      assert FirstPages(sales, z, k) == FirstPages(sales, z, k - 1) + PageSlice(sales, p);
      PageStep(sales, p);
      MulStep(k, z);
    }
  }

  /**
   * The unfiltered paging as written: the offset is cast to `int`, the end is
   * `min(start + size, n)` in `int` arithmetic, and `subList` rejects a
   * negative start with an `IndexOutOfBoundsException`.
   */
  function ManualPageAsWritten(sales: seq<Sale>, p: Pageable): (r: Result<seq<Sale>>)
    ensures Offset(p) + p.size < TwoTo31 ==> r == Ok(PageSlice(sales, p))
    ensures r.Err? <==> ToInt32(Offset(p)) < 0
    ensures r.Err? ==> r.error.kind == Internal
  {
    var start := ToInt32(Offset(p));
    var end := Min(ToInt32(start + p.size), |sales|);
    assert Offset(p) + p.size < TwoTo31 ==> start == Offset(p) && end == Min(Offset(p) + p.size, |sales|);
    if start <= end then
      if start < 0 then Throw(Internal, "fromIndex = " + LongText(start))
      else
        assert start == end ==> sales[start..end] == [];
        Ok(sales[start..end])
    else Ok([])
  }

  /** A page of responses with the pageable it answers and the total count. */
  datatype SalesPage = SalesPage(content: seq<SaleResponse>, pageable: Pageable, total: int)

  /** The branch a listing filters on: a BRANCH caller's own, whatever was asked. */
  function ListBranch(branch: Option<string>, role: Option<string>, userBranch: Option<string>): (b: Option<string>)
    ensures HasRole(role, BRANCH) ==> b == userBranch
    ensures !HasRole(role, BRANCH) ==> b == branch
  {
    if HasRole(role, BRANCH) then userBranch else branch
  }

  /**
   * `listSales` with the offset kept exact: the selected sales (window and
   * branch filter), one page of them, and their count as total. The source's
   * two paths (in-memory slice for no branch, store paging otherwise) give
   * the same page once the offset is exact.
   */
  function ListSales(table: seq<Sale>, from: Instant, to: Instant, branch: Option<string>, p: Pageable,
                     role: Option<string>, userBranch: Option<string>): (r: SalesPage)
    ensures r.total == |Select(table, from, to, ListBranch(branch, role, userBranch))|
    ensures |r.content| <= p.size && r.pageable == p
    ensures forall i :: 0 <= i < |r.content| ==>
      FromDto(r.content[i]) in table && Selected(FromDto(r.content[i]), from, to, ListBranch(branch, role, userBranch))
    ensures HasRole(role, BRANCH) && !NullOrBlank(userBranch) ==>
      forall i :: 0 <= i < |r.content| ==> r.content[i].branch == userBranch.value
    ensures var sel := Select(table, from, to, ListBranch(branch, role, userBranch));
      && |r.content| == (if Offset(p) >= |sel| then 0 else Min(p.size, |sel| - Offset(p)))
      && forall i :: 0 <= i < |r.content| ==> FromDto(r.content[i]) == sel[Offset(p) + i]
  {
    var sales := Select(table, from, to, ListBranch(branch, role, userBranch));
    var page := PageSlice(sales, p);
    PageSliceTotal(sales, p);
    PageContent(sales, p);
    SalesPage(Dtos(page), p, PageTotal(|page|, p, |sales|))
  }

  /** `listSales` as written: the unfiltered path uses the truncating manual paging. */
  function ListSalesAsWritten(table: seq<Sale>, from: Instant, to: Instant, branch: Option<string>, p: Pageable,
                              role: Option<string>, userBranch: Option<string>): (r: Result<SalesPage>)
    ensures !NullOrBlank(ListBranch(branch, role, userBranch)) ==> r == Ok(ListSales(table, from, to, branch, p, role, userBranch))
    ensures Offset(p) + p.size < TwoTo31 ==> r == Ok(ListSales(table, from, to, branch, p, role, userBranch))
  {
    var b := ListBranch(branch, role, userBranch);
    if NullOrBlank(b) then
      var sales := Select(table, from, to, b);
      match ManualPageAsWritten(sales, p)
      case Err(e) => Err(e)
      case Ok(page) => Ok(SalesPage(Dtos(page), p, PageTotal(|page|, p, |sales|)))
    else
      Ok(ListSales(table, from, to, branch, p, role, userBranch))
  }

  /**
   * Page 65536 of size 65536 has offset 2^32, which the cast turns into 0:
   * the first page comes back (with total 2^32 + 1) where an empty page with
   * total 1 is due.
   */
  lemma WrappedOffsetRepeatsFirstPage(s: Sale)
    ensures ManualPageAsWritten([s], PageRequest(65536, 65536)) == Ok([s])
    ensures PageSlice([s], PageRequest(65536, 65536)) == []
    ensures PageTotal(1, PageRequest(65536, 65536), 1) == TwoTo32 + 1
  {
    var p: Pageable := PageRequest(65536, 65536);
    assert Offset(p) == TwoTo32;
    assert ToInt32(TwoTo32) == 0;
    assert ToInt32(65536) == 65536;
    assert Min(65536, 1) == 1;
    assert [s][0..1] == [s];
  }

  /** Page 32768 of size 65536 has offset 2^31, which the cast makes negative: the call fails. */
  lemma NegativeOffsetFails(sales: seq<Sale>)
    requires |sales| < TwoTo31
    ensures ManualPageAsWritten(sales, PageRequest(32768, 65536)).Err?
    ensures PageSlice(sales, PageRequest(32768, 65536)) == []
  {
    var p: Pageable := PageRequest(32768, 65536);
    assert Offset(p) == TwoTo31;
    assert ToInt32(Offset(p)) == -TwoTo31;
  }
}
