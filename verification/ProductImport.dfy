/** Importing a shop's catalogue: normalising the rows a marketplace lists, and the
    insert-or-update that stores them, keyed by shop and SKU (here: one shop). */
module ProductImport {
  import opened Basics
  import opened Money

  const MAX_ROWS := 10000
  const MAX_ERRORS := 50

  datatype Sku = Sku(externalSku: string, vendorCode: string, name: string, price: real, currency: string, stock: int)

  // The vendor code is cut by bytes, so it is kept as bytes.
  datatype Row = Row(externalSku: string, vendorCode: Option<seq<nat>>, name: string, price: real, currency: string,
      stock: nat)

  datatype ErrorCode = LimitExceeded | DuplicateSku | InvalidSku | TooManyErrors

  datatype ImportError = ImportError(sku: string, code: ErrorCode)

  // ---- Text ----

  predicate IsSpace(c: char) {
    var n := c as int;
    9 <= n <= 13 || n == 0x20 || n == 0x85 || n == 0xA0 || n == 0x1680 || 0x2000 <= n <= 0x200A
    || n == 0x2028 || n == 0x2029 || n == 0x202F || n == 0x205F || n == 0x3000
  }

  predicate IsControl(c: char) {
    c as int < 0x20 || 0x7F <= c as int <= 0x9F
  }

  function TrimLeft(s: string): string {
    if s != [] && IsSpace(s[0]) then TrimLeft(s[1..]) else s
  }

  function TrimRight(s: string): string {
    if s != [] && IsSpace(s[|s| - 1]) then TrimRight(s[..|s| - 1]) else s
  }

  function TrimSpace(s: string): string {
    TrimRight(TrimLeft(s))
  }

  /** Upper case as far as a currency code can tell: other letters never become A to Z. */
  function Upper(c: char): char {
    if 'a' <= c <= 'z' then (c as int - 32) as char
    else if c as int == 0x131 then 'I'
    else if c as int == 0x17F then 'S'
    else c
  }

  function ToUpper(s: string): string {
    seq(|s|, k requires 0 <= k < |s| => Upper(s[k]))
  }

  function Utf8(c: char): seq<nat> {
    var n := c as int;
    if n < 0x80 then [n]
    else if n < 0x800 then [0xC0 + n / 64, 0x80 + n % 64]
    else if n < 0x10000 then [0xE0 + n / 4096, 0x80 + n / 64 % 64, 0x80 + n % 64]
    else [0xF0 + n / 262144, 0x80 + n / 4096 % 64, 0x80 + n / 64 % 64, 0x80 + n % 64]
  }

  function Encode(s: string): seq<nat> {
    if s == [] then [] else Utf8(s[0]) + Encode(s[1..])
  }

  predicate Continues(b: nat) {
    0x80 <= b <= 0xBF
  }

  /** The length of the first character of a text in UTF-8, zero if there is none. */
  function CharLength(bs: seq<nat>): (n: nat)
    requires bs != []
    ensures n <= |bs|
  {
    var b := bs[0];
    if b < 0x80 then 1
    else if |bs| >= 2 && 0xC2 <= b <= 0xDF && Continues(bs[1]) then 2
    else if |bs| >= 3 && 0xE0 <= b <= 0xEF && Continues(bs[1]) && Continues(bs[2])
            && (b == 0xE0 ==> bs[1] >= 0xA0) && (b == 0xED ==> bs[1] <= 0x9F) then 3
    else if |bs| >= 4 && 0xF0 <= b <= 0xF4 && Continues(bs[1]) && Continues(bs[2]) && Continues(bs[3])
            && (b == 0xF0 ==> bs[1] >= 0x90) && (b == 0xF4 ==> bs[1] <= 0x8F) then 4
    else 0
  }

  predicate ValidUtf8(bs: seq<nat>) {
    bs == [] || (CharLength(bs) > 0 && ValidUtf8(bs[CharLength(bs)..]))
  }

  lemma FirstChar(c: char, rest: seq<nat>)
    ensures CharLength(Utf8(c) + rest) == |Utf8(c)|
  {}

  lemma NoFirstChar(c: char, n: nat)
    requires 0 < n < |Utf8(c)|
    ensures CharLength(Utf8(c)[..n]) == 0
  {}

  ghost predicate CharBoundary(s: string, n: nat) {
    exists k :: 0 <= k <= |s| && |Encode(s[..k])| == n
  }

  /** The first `n` bytes of a text are valid UTF-8 if and only if the cut falls between two characters. */
  lemma {:induction false} CutIsValidExactly(s: string, n: nat)
    requires n <= |Encode(s)|
    ensures ValidUtf8(Encode(s)[..n]) <==> CharBoundary(s, n)
  {
    if n == 0 {
      assert Encode(s)[..0] == [] && |Encode(s[..0])| == 0;
    } else {
      var u, rest := Utf8(s[0]), Encode(s[1..]);
      if n < |u| {
        assert Encode(s)[..n] == u[..n];
        NoFirstChar(s[0], n);
        forall k | 0 < k <= |s| ensures |Encode(s[..k])| > n {
          assert s[..k][0] == s[0];
        }
        assert s[..0] == [];
      } else {
        assert Encode(s)[..n] == u + rest[..n - |u|];
        FirstChar(s[0], rest[..n - |u|]);
        assert (u + rest[..n - |u|])[|u|..] == rest[..n - |u|];
        CutIsValidExactly(s[1..], n - |u|);
        BoundaryMoves(s, n);
      }
    }
  }

  lemma BoundaryMoves(s: string, n: nat)
    requires s != [] && n >= |Utf8(s[0])|
    ensures CharBoundary(s, n) <==> CharBoundary(s[1..], n - |Utf8(s[0])|)
  {
    forall k | 0 < k <= |s| ensures |Encode(s[..k])| == |Utf8(s[0])| + |Encode(s[1..][..k - 1])| {
      assert s[..k][0] == s[0] && s[..k][1..] == s[1..][..k - 1];
    }
    if CharBoundary(s, n) {
      var k :| 0 <= k <= |s| && |Encode(s[..k])| == n;
      assert k > 0 && |Encode(s[1..][..k - 1])| == n - |Utf8(s[0])|;
    }
    if CharBoundary(s[1..], n - |Utf8(s[0])|) {
      var k :| 0 <= k <= |s[1..]| && |Encode(s[1..][..k])| == n - |Utf8(s[0])|;
      assert |Encode(s[..k + 1])| == n;
    }
  }

  /** The first `n` bytes hold a NUL if and only if one of the characters that begin in them is one. */
  lemma {:induction false} NulExactly(s: string, n: nat)
    requires n <= |Encode(s)|
    ensures 0 in Encode(s)[..n] <==> exists k :: 0 <= k < |s| && s[k] == '\0' && |Encode(s[..k])| < n
  {
    if s != [] && n > 0 {
      var u, rest := Utf8(s[0]), Encode(s[1..]);
      assert s[..0] == [];
      assert 0 in u <==> s[0] == '\0';
      forall k | 0 < k < |s| ensures |Encode(s[..k])| == |u| + |Encode(s[1..][..k - 1])| && s[k] == s[1..][k - 1] {
        assert s[..k][0] == s[0] && s[..k][1..] == s[1..][..k - 1];
      }
      if n < |u| {
        assert Encode(s)[..n] == u[..n];
        assert s[0] != '\0' && 0 !in u;
      } else {
        assert Encode(s)[..n] == u + rest[..n - |u|];
        NulExactly(s[1..], n - |u|);
        NulMoves(s, n);
      }
    }
  }

  lemma NulMoves(s: string, n: nat)
    requires s != [] && n >= |Utf8(s[0])|
    requires forall k :: 0 < k < |s| ==>
               |Encode(s[..k])| == |Utf8(s[0])| + |Encode(s[1..][..k - 1])| && s[k] == s[1..][k - 1]
    ensures (exists k :: 0 <= k < |s| && s[k] == '\0' && |Encode(s[..k])| < n)
            <==> s[0] == '\0'
                 || exists k :: 0 <= k < |s[1..]| && s[1..][k] == '\0' && |Encode(s[1..][..k])| < n - |Utf8(s[0])|
  {
    assert s[..0] == [] && |Utf8(s[0])| > 0;
    if k :| 0 <= k < |s[1..]| && s[1..][k] == '\0' && |Encode(s[1..][..k])| < n - |Utf8(s[0])| {
      assert s[k + 1] == '\0' && |Encode(s[..k + 1])| < n;
    }
    if k :| 0 < k < |s| && s[k] == '\0' && |Encode(s[..k])| < n {
      assert s[1..][k - 1] == '\0' && |Encode(s[1..][..k - 1])| < n - |Utf8(s[0])|;
    }
  }

  predicate ValidText(value: string, maxLen: nat, required: bool) {
    && !(required && value == "")
    && |Encode(value)| <= maxLen
    && forall k :: 0 <= k < |value| ==> !IsControl(value[k])
  }

  predicate ValidCurrency(value: string) {
    |Encode(value)| == 3 && forall k :: 0 <= k < |value| ==> 'A' <= value[k] <= 'Z'
  }

  predicate ValidMoney(v: real) {
    0.0 <= v <= 9999999999.99
  }

  // ---- One row ----

  function Key(s: Sku): string {
    TrimSpace(s.externalSku)
  }

  function CurrencyOf(s: Sku): string {
    var c := ToUpper(TrimSpace(s.currency));
    if c == "" then "RUB" else c
  }

  predicate ValidSku(s: Sku) {
    ValidText(Key(s), 100, true) && ValidText(TrimSpace(s.name), 255, false) && ValidCurrency(CurrencyOf(s)) &&
        ValidMoney(s.price)
  }

  function RowOf(s: Sku): Row {
    var name, vendor := TrimSpace(s.name), Encode(TrimSpace(s.vendorCode));
    Row(Key(s),
        if vendor == [] then None else Some(if |vendor| > 100 then vendor[..100] else vendor),
        if name == "" then Key(s) else name,
        s.price, CurrencyOf(s),
        if s.stock < 0 then 0 else s.stock)
  }

  /** A normal form row column by column. */
  lemma RowSpelledOut(s: Sku)
    ensures var row, listed := RowOf(s), TrimSpace(s.currency);
      && row.externalSku == TrimSpace(s.externalSku) && row.price == s.price
      && row.name == (if TrimSpace(s.name) == "" then row.externalSku else TrimSpace(s.name))
      && row.stock == (if s.stock >= 0 then s.stock else 0)
      && (row.vendorCode.None? <==> Encode(TrimSpace(s.vendorCode)) == [])
      && (row.vendorCode.Some? ==> var bs := Encode(TrimSpace(s.vendorCode));
            row.vendorCode.value == if |bs| <= 100 then bs else bs[..100])
      && (listed == "" ==> row.currency == "RUB")
      && (listed != "" ==> |row.currency| == |listed| && forall k :: 0 <= k < |listed| ==>
            && ('A' <= listed[k] <= 'Z' ==> row.currency[k] == listed[k])
            && ('a' <= listed[k] <= 'z' ==> row.currency[k] as int == listed[k] as int - 32))
  {
    assert |ToUpper(TrimSpace(s.currency))| == |TrimSpace(s.currency)|;
  }

  /** What makes a listed SKU valid. */
  lemma ValidSkuSpelledOut(s: Sku)
    ensures ValidSku(s) <==>
            var key, name, currency := TrimSpace(s.externalSku), TrimSpace(s.name), RowOf(s).currency;
            && key != "" && |Encode(key)| <= 100 && |Encode(name)| <= 255
            && (forall k :: 0 <= k < |key| ==> key[k] as int >= 0x20 && !(0x7F <= key[k] as int <= 0x9F))
            && (forall k :: 0 <= k < |name| ==> name[k] as int >= 0x20 && !(0x7F <= name[k] as int <= 0x9F))
            && |Encode(currency)| == 3 && (forall k :: 0 <= k < |currency| ==> 'A' <= currency[k] <= 'Z')
            && 0.0 <= s.price <= 9999999999.99
  {}

  /** Trimming takes white space off both ends, all of it, and nothing else. */
  lemma TrimSpaceSpelledOut(s: string)
    ensures exists i, j :: 0 <= i <= j <= |s| && Trimmed(s, i, j)
  {
    var i := TrimLeftAt(s);
    var t := s[i..];
    var j := TrimRightAt(t);
    assert t[..j] == s[i..i + j];
    forall k | i + j <= k < |s| ensures IsSpace(s[k]) {
      assert s[k] == t[k - i];
    }
    assert Trimmed(s, i, i + j);
  }

  ghost predicate Trimmed(s: string, i: nat, j: nat)
    requires i <= j <= |s|
  {
    && TrimSpace(s) == s[i..j]
    && (forall k :: 0 <= k < i || j <= k < |s| ==> IsSpace(s[k]))
    && (i < j ==> !IsSpace(s[i]) && !IsSpace(s[j - 1]))
  }

  lemma {:induction false} TrimLeftAt(s: string) returns (i: nat)
    ensures i <= |s| && TrimLeft(s) == s[i..]
    ensures (forall k :: 0 <= k < i ==> IsSpace(s[k])) && (i < |s| ==> !IsSpace(s[i]))
  {
    i := 0;
    if s != [] && IsSpace(s[0]) {
      var rest := TrimLeftAt(s[1..]);
      i := rest + 1;
      forall k | 0 <= k < i ensures IsSpace(s[k]) {
        assert k > 0 ==> s[k] == s[1..][k - 1];
      }
    }
  }

  lemma {:induction false} TrimRightAt(s: string) returns (j: nat)
    ensures j <= |s| && TrimRight(s) == s[..j]
    ensures (forall k :: j <= k < |s| ==> IsSpace(s[k])) && (j > 0 ==> !IsSpace(s[j - 1]))
  {
    j := |s|;
    if s != [] && IsSpace(s[|s| - 1]) {
      j := TrimRightAt(s[..|s| - 1]);
      assert s[..|s| - 1][..j] == s[..j];
      forall k | j <= k < |s| ensures IsSpace(s[k]) {
        assert k < |s| - 1 ==> s[k] == s[..|s| - 1][k];
      }
    }
  }

  lemma CandidatesSpelledOut(skus: seq<Sku>, k: nat)
    requires k < |skus|
    ensures Candidates(skus)[k] == Candidate(TrimSpace(skus[k].externalSku), ValidSku(skus[k]), RowOf(skus[k]))
  {}

  // What the loop needs to know of a listed SKU: the key, whether it is valid, its normal form.
  datatype Candidate = Candidate(key: string, valid: bool, row: Row)

  function CandidateOf(s: Sku): Candidate {
    Candidate(Key(s), ValidSku(s), RowOf(s))
  }

  function Candidates(skus: seq<Sku>): (c: seq<Candidate>)
    ensures |c| == |skus| && forall k :: 0 <= k < |skus| ==> c[k].row.externalSku == c[k].key
  {
    seq(|skus|, k requires 0 <= k < |skus| => CandidateOf(skus[k]))
  }

  // ---- All rows ----

  /** Whether a valid row before `i` has the same SKU. */
  ghost predicate Repeated(cs: seq<Candidate>, i: nat)
    requires i < |cs|
  {
    exists j :: 0 <= j < i && cs[j].valid && cs[j].key == cs[i].key
  }

  /** A row is kept if and only if it is the first valid one with its SKU, within the row limit. */
  ghost predicate Kept(cs: seq<Candidate>, i: nat)
    requires i < |cs|
  {
    i < MAX_ROWS && cs[i].valid && !Repeated(cs, i)
  }

  ghost function ErrorAt(cs: seq<Candidate>, i: nat): ImportError
    requires i < |cs| && !Kept(cs, i)
  {
    if i >= MAX_ROWS then ImportError("", LimitExceeded)
    else if Repeated(cs, i) then ImportError(cs[i].key, DuplicateSku)
    else ImportError(cs[i].key, InvalidSku)
  }

  ghost function KeptRows(cs: seq<Candidate>, n: nat): (r: seq<Row>)
    requires n <= |cs|
  {
    if n == 0 then [] else KeptRows(cs, n - 1) + (if Kept(cs, n - 1) then [cs[n - 1].row] else [])
  }

  ghost function Errors(cs: seq<Candidate>, n: nat): (r: seq<ImportError>)
    requires n <= |cs|
  {
    if n == 0 then [] else Errors(cs, n - 1) + (if Kept(cs, n - 1) then [] else [ErrorAt(cs, n - 1)])
  }

  function CapImportErrors(errs: seq<ImportError>): (r: seq<ImportError>)
    ensures |r| == Min(|errs|, MAX_ERRORS + 1)
    ensures forall k :: 0 <= k < Min(|errs|, MAX_ERRORS) ==> r[k] == errs[k]
    ensures |errs| <= 50 ==> r == errs
    ensures |errs| > 50 ==> |r| == 51 && r[50] == ImportError("", TooManyErrors)
  {
    if |errs| <= MAX_ERRORS then errs else errs[..MAX_ERRORS] + [ImportError("", TooManyErrors)]
  }

  /** Why a row is not kept: it is beyond the first 10000, or a valid row with its SKU came before, or it
      is not valid. */
  lemma ErrorSpelledOut(cs: seq<Candidate>, i: nat)
    requires i < |cs|
    ensures Kept(cs, i) <==>
            i < 10_000 && cs[i].valid && forall j :: 0 <= j < i && cs[j].key == cs[i].key ==> !cs[j].valid
    ensures !Kept(cs, i) ==>
              ErrorAt(cs, i) ==
              if i >= 10_000 then ImportError("", LimitExceeded)
              else if exists j :: 0 <= j < i && cs[j].key == cs[i].key && cs[j].valid
              then ImportError(cs[i].key, DuplicateSku)
              else ImportError(cs[i].key, InvalidSku)
  {}

  method NormalizeImportRows(skus: seq<Sku>) returns (rows: seq<Row>, skipped: nat, errs: seq<ImportError>)
    ensures rows == KeptRows(Candidates(skus), |skus|)
    ensures errs == CapImportErrors(Errors(Candidates(skus), |skus|))
    ensures skipped == |Errors(Candidates(skus), |skus|)|
  {
    var seen: set<string> := {};
    ghost var cs := Candidates(skus);
    rows, skipped, errs := [], 0, [];
    for i := 0 to |skus|
      invariant DoneUpTo(cs, i, rows, skipped, errs, seen)
    {
      var c := CandidateAt(skus, i);
      seen, rows, skipped, errs := AddRow(cs, c, i, seen, rows, skipped, errs);
    }
    errs := CapImportErrors(errs);
  }

  method AddRow(ghost cs: seq<Candidate>, c: Candidate, i: nat, seen: set<string>, rows: seq<Row>, skipped: nat,
                errs: seq<ImportError>)
    returns (seen': set<string>, rows': seq<Row>, skipped': nat, errs': seq<ImportError>)
    requires i < |cs| && c == cs[i] && DoneUpTo(cs, i, rows, skipped, errs, seen)
    ensures DoneUpTo(cs, i + 1, rows', skipped', errs', seen')
  {
    seen', rows', skipped', errs' := seen, rows, skipped, errs;
    var error := Examine(c, i, seen);
    NextRow(cs, i, rows, skipped, errs, seen);
    if error.Some? {
      skipped' := skipped + 1;
      errs' := errs + [error.value];
    } else {
      seen' := seen + {c.key};
      rows' := rows + [c.row];
    }
  }

  method CandidateAt(skus: seq<Sku>, i: nat) returns (c: Candidate)
    requires i < |skus|
    ensures c == Candidates(skus)[i]
  {
    c := CandidateOf(skus[i]);
  }

  /** Why the row at `i` is skipped, if it is, given the keys kept so far. */
  function Examine(c: Candidate, i: nat, seen: set<string>): Option<ImportError> {
    if i >= MAX_ROWS then Some(ImportError("", LimitExceeded))
    else if c.key in seen then Some(ImportError(c.key, DuplicateSku))
    else if !c.valid then Some(ImportError(c.key, InvalidSku))
    else None
  }

  /** `seen` are the keys of the valid rows before `i`. */
  ghost predicate Seen(cs: seq<Candidate>, i: nat, seen: set<string>)
    requires i <= |cs|
  {
    seen == set j | 0 <= j < i && cs[j].valid :: cs[j].key
  }

  lemma ExamineFindsKept(cs: seq<Candidate>, i: nat, seen: set<string>)
    requires i < |cs| && (i <= MAX_ROWS ==> Seen(cs, i, seen))
    ensures Examine(cs[i], i, seen) == if Kept(cs, i) then None else Some(ErrorAt(cs, i))
    ensures i < MAX_ROWS ==> Seen(cs, i + 1, if Kept(cs, i) then seen + {cs[i].key} else seen)
  {
    if i < MAX_ROWS {
      assert cs[i].key in seen <==> Repeated(cs, i);
    }
  }

  ghost predicate DoneUpTo(cs: seq<Candidate>, i: nat, rows: seq<Row>, skipped: nat, errs: seq<ImportError>,
                           seen: set<string>)
    requires i <= |cs|
  {
    && rows == KeptRows(cs, i) && errs == Errors(cs, i) && skipped == |errs|
    && (i <= MAX_ROWS ==> Seen(cs, i, seen))
  }

  lemma NextRow(cs: seq<Candidate>, i: nat, rows: seq<Row>, skipped: nat, errs: seq<ImportError>, seen: set<string>)
    requires i < |cs| && DoneUpTo(cs, i, rows, skipped, errs, seen)
    ensures var error := Examine(cs[i], i, seen);
      if error.Some? then DoneUpTo(cs, i + 1, rows, skipped + 1, errs + [error.value], seen)
      else DoneUpTo(cs, i + 1, rows + [cs[i].row], skipped, errs, seen + {cs[i].key})
  {
    ExamineFindsKept(cs, i, seen);
  }

  ghost predicate DistinctRows(rows: seq<Row>) {
    forall a, b :: 0 <= a < b < |rows| ==> rows[a].externalSku != rows[b].externalSku
  }

  /** Kept rows have pairwise distinct SKUs; with the skipped ones they make up the input;
      and a row is among them only if it is the normal form of the first valid occurrence of its SKU. */
  lemma {:induction false} KeptRowsAreDistinct(cs: seq<Candidate>, n: nat)
    requires n <= |cs| && forall k :: 0 <= k < |cs| ==> cs[k].row.externalSku == cs[k].key
    ensures DistinctRows(KeptRows(cs, n))
    ensures |KeptRows(cs, n)| + |Errors(cs, n)| == n
    ensures forall row :: row in KeptRows(cs, n) <==> exists i :: 0 <= i < n && Kept(cs, i) && row == cs[i].row
  {
    if n > 0 {
      KeptRowsAreDistinct(cs, n - 1);
      var rows := KeptRows(cs, n - 1);
      if Kept(cs, n - 1) {
        forall a | 0 <= a < |rows| ensures rows[a].externalSku != cs[n - 1].key {
          assert rows[a] in rows;
          var i :| 0 <= i < n - 1 && Kept(cs, i) && rows[a] == cs[i].row;
        }
      }
    }
  }

  // ---- The catalogue ----

  // `own` stands for the columns an import does not touch: price limits, cost, rating.
  datatype Product = Product(
    vendorCode: Option<seq<nat>>, name: string, price: real, currency: string, active: bool, stock: int, own: int,
        syncedAt: int)

  type Catalogue = map<string, Product>

  /** The stock is narrowed to 32 bits, which wraps around. */
  function Int32(n: int): (r: int)
    ensures -0x8000_0000 <= r < 0x8000_0000
  {
    (n + 0x8000_0000) % 0x1_0000_0000 - 0x8000_0000
  }

  /** The columns take the row: the stock, once narrowed, is not negative, and the vendor code is
      UTF-8 without a NUL. */
  predicate Storable(r: Row) {
    && Int32(r.stock) >= 0
    && (r.vendorCode.Some? ==> ValidUtf8(r.vendorCode.value) && 0 !in r.vendorCode.value)
  }

  ghost predicate AllStorable(rows: seq<Row>) {
    forall k :: 0 <= k < |rows| ==> Storable(rows[k])
  }

  /** What the statement leaves in the row of a SKU; a new product has no vendor code unless given. */
  function Merged(prev: Option<Product>, r: Row, now: int): Product {
    Product(if r.vendorCode.Some? || prev.None? then r.vendorCode else prev.value.vendorCode,
            r.name, RoundMoney(r.price), r.currency, true, Int32(r.stock), if prev.Some? then prev.value.own
                else 0, now)
  }

  function Find(c: Catalogue, sku: string): Option<Product> {
    if sku in c then Some(c[sku]) else None
  }

  datatype Upserted = Upserted(catalogue: Catalogue, added: nat, updated: nat)

  /** The rows one after the other, as the server executes the statement. */
  function UpsertAll(c: Catalogue, rows: seq<Row>, now: int): Upserted {
    if rows == [] then Upserted(c, 0, 0) else
      var before, r := UpsertAll(c, rows[..|rows| - 1], now), rows[|rows| - 1];
      var after := before.catalogue[r.externalSku := Merged(Find(before.catalogue, r.externalSku), r, now)];
      if r.externalSku in before.catalogue then Upserted(after, before.added, before.updated + 1)
      else Upserted(after, before.added + 1, before.updated)
  }

  class Products {
    var catalogue: Catalogue

    constructor ()
      ensures catalogue == map[]
    {
      catalogue := map[];
    }

    /** One statement for all rows; the server refuses it when two rows have the same key or a row
        does not fit the columns, and then nothing changes. */
    method UpsertImported(rows: seq<Row>, now: int) returns (ok: bool, added: nat, updated: nat)
      modifies this
      ensures ok <==> DistinctRows(rows) && AllStorable(rows)
      ensures ok ==> Upserted(catalogue, added, updated) == UpsertAll(old(catalogue), rows, now)
      ensures !ok ==> catalogue == old(catalogue)
    {
      added, updated := 0, 0;
      var next, touched := catalogue, {};
      for k := 0 to |rows|
        invariant DistinctRows(rows[..k]) && AllStorable(rows[..k]) &&
                 touched == set a | 0 <= a < k :: rows[a].externalSku
        invariant Upserted(next, added, updated) == UpsertAll(catalogue, rows[..k], now)
        invariant catalogue == old(catalogue)
      {
        assert rows[..k + 1][..k] == rows[..k];
        var sku := rows[k].externalSku;
        if sku in touched || !Storable(rows[k]) {
          return false, 0, 0;
        }
        if sku in next { updated := updated + 1; } else { added := added + 1; }
        next := next[sku := Merged(Find(next, sku), rows[k], now)];
        touched := touched + {sku};
      }
      assert rows[..|rows|] == rows;
      catalogue := next;
      ok := true;
    }
  }

  lemma LastIsNew(rows: seq<Row>)
    requires DistinctRows(rows) && rows != []
    ensures var init, r := rows[..|rows| - 1], rows[|rows| - 1];
            rows == init + [r] && DistinctRows(init) && r !in init && forall row :: row in init ==>
                row.externalSku != r.externalSku
  {
    var init, r := rows[..|rows| - 1], rows[|rows| - 1];
    assert forall a :: 0 <= a < |init| ==> init[a].externalSku != r.externalSku;
  }

  /** The catalogue an upsert leaves, SKU by SKU and without an order. */
  lemma {:induction false} UpsertResult(c: Catalogue, rows: seq<Row>, now: int)
    requires DistinctRows(rows)
    ensures var u := UpsertAll(c, rows, now).catalogue;
            && (forall row :: row in rows ==>
                  Find(u, row.externalSku) == Some(Merged(Find(c, row.externalSku), row, now)))
            && (forall sku :: (forall row :: row in rows ==> row.externalSku != sku) ==> Find(u, sku) == Find(c, sku))
  {
    if rows != [] {
      LastIsNew(rows);
      UpsertResult(c, rows[..|rows| - 1], now);
    }
  }

  /** An accepted statement column by column. A product that the import does not name, or that it updates,
      keeps its price limits, cost and rating; an imported row is active and holds what was listed, its
      vendor code only if one was; a new product starts with none of the rest. */
  lemma ColumnsSpelledOut(c: Catalogue, rows: seq<Row>, now: int)
    requires DistinctRows(rows) && AllStorable(rows)
    ensures var u := UpsertAll(c, rows, now).catalogue;
      && (forall sku :: sku in c ==> sku in u && u[sku].own == c[sku].own)
      && (forall row :: row in rows ==>
            && row.externalSku in u && var product := u[row.externalSku];
            && product.name == row.name && product.currency == row.currency && product.active
            && product.syncedAt == now && product.price == RoundMoney(row.price)
            && (row.vendorCode.Some? ==> product.vendorCode == row.vendorCode)
            && (row.vendorCode.None? && row.externalSku in c ==> product.vendorCode == c[row.externalSku].vendorCode)
            && (row.externalSku !in c ==> product.own == 0 && product.vendorCode == row.vendorCode))
      && (forall sku :: sku in u && sku !in c ==> exists row :: row in rows && row.externalSku == sku)
      && (forall sku :: sku in c && (forall row :: row in rows ==> row.externalSku != sku) ==> u[sku] == c[sku])
  {
    UpsertResult(c, rows, now);
    var u := UpsertAll(c, rows, now).catalogue;
    forall sku | sku in c ensures sku in u && u[sku].own == c[sku].own {
      assert Find(c, sku) == Some(c[sku]);
      if row :| row in rows && row.externalSku == sku {
        assert Find(u, sku) == Some(Merged(Find(c, sku), row, now));
      } else {
        assert Find(u, sku) == Find(c, sku);
      }
    }
    forall sku | sku in u && sku !in c ensures exists row :: row in rows && row.externalSku == sku {
      if forall row :: row in rows ==> row.externalSku != sku {
        assert Find(u, sku) == Find(c, sku);
      }
    }
    forall sku | sku in c && (forall row :: row in rows ==> row.externalSku != sku) ensures u[sku] == c[sku] {
      assert Find(u, sku) == Find(c, sku);
    }
  }

  /** Of an accepted statement, the stored stock is the listed one if and only if that fits 31 bits; a
      larger one has lost its multiple of 2^32. The stored price is the listed one in kopecks. */
  lemma StockIsKeptExactly(c: Catalogue, rows: seq<Row>, now: int, row: Row)
    requires DistinctRows(rows) && AllStorable(rows) && row in rows
    ensures var u := UpsertAll(c, rows, now).catalogue;
      && row.externalSku in u && u[row.externalSku].stock == row.stock % 0x1_0000_0000 >= 0
      && (u[row.externalSku].stock == row.stock <==> row.stock < 0x8000_0000)
      && u[row.externalSku].price == RoundMoney(row.price)
  {
    UpsertResult(c, rows, now);
    assert Find(UpsertAll(c, rows, now).catalogue, row.externalSku) == Some(Merged(Find(c, row.externalSku), row, now));
    var k :| 0 <= k < |rows| && rows[k] == row;
    Int32Wraps(rows[k].stock);
  }

  lemma Int32Wraps(n: nat)
    ensures Int32(n) >= 0 ==> Int32(n) == n % 0x1_0000_0000 && (Int32(n) == n <==> n < 0x8000_0000)
  {}

  /** Every row is counted once, as updated exactly when the catalogue had its SKU before. */
  lemma {:induction false} UpsertCounts(c: Catalogue, rows: seq<Row>, now: int)
    requires DistinctRows(rows)
    ensures var u := UpsertAll(c, rows, now); u.added + u.updated == |rows| && u.updated == |Known(c, rows)|
  {
    if rows == [] {
      assert Known(c, rows) == {};
    } else {
      var init, r := rows[..|rows| - 1], rows[|rows| - 1];
      LastIsNew(rows);
      UpsertCounts(c, init, now);
      UpsertResult(c, init, now);
      assert Find(UpsertAll(c, init, now).catalogue, r.externalSku) == Find(c, r.externalSku);
      assert Known(c, rows) == if r.externalSku in c then Known(c, init) + {r} else Known(c, init);
    }
  }

  /** The rows whose SKU the catalogue has. */
  function Known(c: Catalogue, rows: seq<Row>): set<Row> {
    set row | row in rows && row.externalSku in c
  }

  /** The order of the rows does not matter. */
  lemma UpsertIgnoresOrder(c: Catalogue, rows: seq<Row>, other: seq<Row>, now: int)
    requires DistinctRows(rows) && DistinctRows(other) && multiset(rows) == multiset(other)
    ensures UpsertAll(c, rows, now) == UpsertAll(c, other, now)
  {
    UpsertResult(c, rows, now);
    UpsertResult(c, other, now);
    UpsertCounts(c, rows, now);
    UpsertCounts(c, other, now);
    forall row ensures row in rows <==> row in other {
      assert row in multiset(rows) <==> row in multiset(other);
    }
    assert Known(c, rows) == Known(c, other);
    assert |rows| == |multiset(rows)| == |multiset(other)| == |other|;
    var u, v := UpsertAll(c, rows, now).catalogue, UpsertAll(c, other, now).catalogue;
    forall sku ensures Find(u, sku) == Find(v, sku) {
      if row :| row in rows && row.externalSku == sku {
        assert row in other;
      }
    }
    SameLookups(u, v);
  }

  lemma SameLookups(u: Catalogue, v: Catalogue)
    requires forall sku :: Find(u, sku) == Find(v, sku)
    ensures u == v
  {
    forall sku ensures sku in u <==> sku in v {
      assert Find(u, sku) == Find(v, sku);
    }
    forall sku | sku in u ensures u[sku] == v[sku] {
      assert Find(u, sku) == Find(v, sku);
    }
  }

  function WithoutTimes(c: Catalogue): Catalogue {
    map sku | sku in c :: c[sku].(syncedAt := 0)
  }

  /** Importing the same rows again adds nothing and changes nothing but timestamps. */
  lemma ReimportChangesNothing(c: Catalogue, rows: seq<Row>, now: int, later: int)
    requires DistinctRows(rows)
    ensures var first := UpsertAll(c, rows, now); var second := UpsertAll(first.catalogue, rows, later);
            && second.added == 0 && second.updated == |rows|
            && WithoutTimes(second.catalogue) == WithoutTimes(first.catalogue)
  {
    var first := UpsertAll(c, rows, now).catalogue;
    var second := UpsertAll(first, rows, later).catalogue;
    UpsertResult(c, rows, now);
    UpsertResult(first, rows, later);
    UpsertCounts(first, rows, later);
    forall row | row in rows ensures row.externalSku in first {
      assert Find(first, row.externalSku).Some?;
    }
    AllKnown(first, rows);
    forall sku ensures Find(WithoutTimes(second), sku) == Find(WithoutTimes(first), sku) {
      if row :| row in rows && row.externalSku == sku {
        assert Find(first, sku) == Some(Merged(Find(c, sku), row, now));
        assert Find(second, sku) == Some(Merged(Find(first, sku), row, later));
      } else {
        assert Find(second, sku) == Find(first, sku);
      }
    }
    SameLookups(WithoutTimes(second), WithoutTimes(first));
  }

  lemma {:induction false} AllKnown(c: Catalogue, rows: seq<Row>)
    requires DistinctRows(rows) && forall row :: row in rows ==> row.externalSku in c
    ensures |Known(c, rows)| == |rows|
  {
    if rows == [] {
      assert Known(c, rows) == {};
    } else {
      var init, r := rows[..|rows| - 1], rows[|rows| - 1];
      LastIsNew(rows);
      AllKnown(c, init);
      assert Known(c, rows) == Known(c, init) + {r};
    }
  }

  // ---- The whole import ----

  // `StoreRefused` and `LogRefused` are errors of the two writes; the products are stored in the latter.
  datatype ImportOutcome =
    | Finished(total: nat, added: nat, updated: nat, skipped: nat, failed: nat)
    | StoreRefused
    | LogRefused

  /** The log keeps the errors as JSON, which in the database cannot hold a NUL. */
  predicate Loggable(errs: seq<ImportError>) {
    forall k :: 0 <= k < |errs| ==> '\0' !in errs[k].sku
  }

  lemma LoggableSpelledOut(errs: seq<ImportError>)
    ensures Loggable(errs) <==> forall k, i :: 0 <= k < |errs| && 0 <= i < |errs[k].sku| ==> errs[k].sku[i] as int != 0
  {
    assert forall k, i :: 0 <= k < |errs| && 0 <= i < |errs[k].sku| ==> errs[k].sku[i] in errs[k].sku;
  }

  /** The store and the log accept an import under exactly these conditions on what was listed;
      otherwise it keeps nothing, or everything but the log. When it finishes, the counters add up. */
  method ExecuteImport(products: Products, skus: seq<Sku>, now: int) returns (o: ImportOutcome)
    modifies products
    ensures o.StoreRefused? <==> !AllStorable(KeptRows(Candidates(skus), |skus|))
    ensures o.LogRefused? <==> !o.StoreRefused? && !Loggable(CapImportErrors(Errors(Candidates(skus), |skus|)))
    ensures o.StoreRefused? ==> products.catalogue == old(products.catalogue)
    ensures !o.StoreRefused? ==>
              products.catalogue == UpsertAll(old(products.catalogue), KeptRows(Candidates(skus), |skus|),
                  now).catalogue
    ensures forall sku :: sku in old(products.catalogue) ==>
              sku in products.catalogue && products.catalogue[sku].own == old(products.catalogue)[sku].own
    ensures o.Finished? ==>
              && o.total == |skus| == o.added + o.updated + o.skipped && o.failed == Min(o.skipped, MAX_ERRORS + 1)
              && Upserted(products.catalogue, o.added, o.updated) ==
                   UpsertAll(old(products.catalogue), KeptRows(Candidates(skus), |skus|), now)
  {
    var rows, skipped, errs := NormalizeImportRows(skus);
    KeptRowsAreDistinct(Candidates(skus), |skus|);
    o := StoreAndLog(products, |skus|, rows, skipped, errs, now);
  }

  method StoreAndLog(products: Products, total: nat, rows: seq<Row>, skipped: nat, errs: seq<ImportError>, now: int)
    returns (o: ImportOutcome)
    requires DistinctRows(rows)
    modifies products
    ensures o.StoreRefused? <==> !AllStorable(rows)
    ensures o.LogRefused? <==> !o.StoreRefused? && !Loggable(errs)
    ensures o.StoreRefused? ==> products.catalogue == old(products.catalogue)
    ensures !o.StoreRefused? ==> products.catalogue == UpsertAll(old(products.catalogue), rows, now).catalogue
    ensures forall sku :: sku in old(products.catalogue) ==>
              sku in products.catalogue && products.catalogue[sku].own == old(products.catalogue)[sku].own
    ensures o.Finished? ==>
              && o.total == total && o.skipped == skipped && o.failed == |errs| && o.added + o.updated == |rows|
              && Upserted(products.catalogue, o.added, o.updated) == UpsertAll(old(products.catalogue), rows, now)
  {
    UpsertCounts(products.catalogue, rows, now);
    var ok, added, updated := products.UpsertImported(rows, now);
    if !ok { return StoreRefused; }
    ColumnsSpelledOut(old(products.catalogue), rows, now);
    o := if Loggable(errs) then Finished(total, added, updated, skipped, |errs|) else LogRefused;
  }

  /** What a listed SKU must be like for the store to take it. */
  ghost predicate Fits(s: Sku) {
    var v := TrimSpace(s.vendorCode);
    && (s.stock < 0 || s.stock % 0x1_0000_0000 < 0x8000_0000)
    && (|Encode(v)| > 100 ==> CharBoundary(v, 100))
    && forall k :: 0 <= k < |v| && v[k] == '\0' ==> |Encode(v[..k])| >= 100
  }

  /** A text that is cut at 100 bytes. */
  lemma CutFits(v: string)
    ensures var cut := Encode(v)[..Min(|Encode(v)|, 100)];
      ValidUtf8(cut) && 0 !in cut <==>
        && (|Encode(v)| > 100 ==> CharBoundary(v, 100))
        && forall k :: 0 <= k < |v| && v[k] == '\0' ==> |Encode(v[..k])| >= 100
  {
    var n := Min(|Encode(v)|, 100);
    CutIsValidExactly(v, n);
    NulExactly(v, n);
    if |Encode(v)| <= 100 {
      assert v[..|v|] == v;
      PrefixIsShorter(v);
    }
  }

  lemma FitsExactly(s: Sku)
    ensures Storable(RowOf(s)) <==> Fits(s)
  {
    var v := TrimSpace(s.vendorCode);
    assert Encode(v)[..Min(|Encode(v)|, 100)] == if |Encode(v)| > 100 then Encode(v)[..100] else Encode(v);
    CutFits(v);
  }

  lemma PrefixIsShorter(s: string)
    ensures forall k :: 0 <= k < |s| ==> |Encode(s[..k])| < |Encode(s)|
  {
    forall k | 0 <= k < |s| ensures |Encode(s[..k])| < |Encode(s)| {
      EncodeSplits(s, k);
      assert s[k..] != [] && |Utf8(s[k])| > 0;
    }
  }

  lemma {:induction false} EncodeSplits(s: string, k: nat)
    requires k <= |s|
    ensures Encode(s) == Encode(s[..k]) + Encode(s[k..])
  {
    if k == 0 {
      assert s[..0] == [] && s[0..] == s;
    } else {
      EncodeSplits(s[1..], k - 1);
      assert s[..k][0] == s[0] && s[..k][1..] == s[1..][..k - 1] && s[1..][k - 1..] == s[k..];
    }
  }

  /** The listings that the store refuses: exactly those with a kept row whose stock wraps below zero or
      whose vendor code is cut inside a character or holds a NUL. One such row refuses them all. */
  lemma RefusedExactly(skus: seq<Sku>)
    ensures AllStorable(KeptRows(Candidates(skus), |skus|))
            <==> forall i :: 0 <= i < |skus| && Kept(Candidates(skus), i) ==> Fits(skus[i])
  {
    var cs := Candidates(skus);
    KeptRowsAreDistinct(cs, |skus|);
    var rows := KeptRows(cs, |skus|);
    forall i | 0 <= i < |skus| ensures cs[i].row == RowOf(skus[i]) && (Storable(cs[i].row) <==> Fits(skus[i])) {
      FitsExactly(skus[i]);
    }
    if AllStorable(rows) {
      forall i | 0 <= i < |skus| && Kept(cs, i) ensures Fits(skus[i]) {
        assert cs[i].row in rows;
      }
    } else {
      var k :| 0 <= k < |rows| && !Storable(rows[k]);
      assert rows[k] in rows;
      var i :| 0 <= i < |skus| && Kept(cs, i) && rows[k] == cs[i].row;
    }
  }

  /** A single SKU of which 2^31 are in stock is valid, and its import is refused; of 2^32 + 7, it stores 7. */
  lemma LargeStockIsRefused(sku: Sku)
    requires ValidSku(sku) && sku.vendorCode == ""
    ensures sku.stock == 0x8000_0000 ==> !AllStorable(KeptRows(Candidates([sku]), 1))
    ensures sku.stock == 0x1_0000_0007 ==> AllStorable(KeptRows(Candidates([sku]), 1)) && Int32(RowOf(sku).stock) == 7
  {
    RefusedExactly([sku]);
    var cs := Candidates([sku]);
    assert cs[0].valid && !Repeated(cs, 0) && Kept(cs, 0);
  }
}
