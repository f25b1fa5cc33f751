/**
 * The products route. GET derives the catalogue query (filter, paging, sort)
 * from the URL's search parameters and answers with one page and the page
 * count; POST lets an administrator create a product from a valid body.
 * The database reads and the create are parameters.
 */
module ProductsRoute {
  import opened Domain
  import opened Schema
  import opened ValidationError
  import opened ProductValidation

  // ---------------------------------------------------------------------------
  // parseInt(s, 10)

  /** The white space `parseInt` skips before the number. */
  predicate IsSpace(c: char)
  {
    c in {' ', '\t', '\n', '\r', '\U{B}', '\U{C}', '\U{A0}', '\U{FEFF}', '\U{2028}', '\U{2029}'}
  }

  /** `s` without its leading white space; TrimStartSuffix shows that exactly that prefix is dropped. */
  function TrimStart(s: string): (r: string)
    ensures |r| <= |s|
    ensures r == [] || !IsSpace(r[0])
  {
    if s != [] && IsSpace(s[0]) then TrimStart(s[1..]) else s
  }

  /** The longest prefix of decimal digits. */
  function LeadingDigits(s: string): (r: string)
    ensures AllDigits(r) && r <= s
  {
    if s != [] && IsDigit(s[0]) then [s[0]] + LeadingDigits(s[1..]) else []
  }

  /** The number a string of decimal digits denotes. */
  function DecimalValue(ds: string): (r: nat)
    requires AllDigits(ds)
  {
    if ds == [] then 0
    else DecimalValue(ds[..|ds| - 1]) * 10 + (ds[|ds| - 1] as int - '0' as int)
  }

  /**
   * `parseInt(s, 10)`: skip leading white space, take an optional sign and
   * the longest run of digits after it; no digits gives NaN, here None.
   */
  function ParseInt(s: string): (r: Option<int>)
  {
    var t := TrimStart(s);
    var negative := t != [] && t[0] == '-';
    var unsigned := if t != [] && (t[0] == '-' || t[0] == '+') then t[1..] else t;
    var ds := LeadingDigits(unsigned);
    if ds == [] then None
    else
      var v: int := DecimalValue(ds);
      Some(if negative then -v else v)
  }

  // ---------------------------------------------------------------------------
  // sortBy.split('_')

  /** `s.split(sep)` for a one-character separator: the pieces between separators. */
  function Split(s: string, sep: char): (r: seq<string>)
    ensures |r| >= 1
    ensures forall i :: 0 <= i < |r| ==> sep !in r[i]
  {
    if s == [] then [""]
    else if s[0] == sep then [""] + Split(s[1..], sep)
    else
      var rest := Split(s[1..], sep);
      [[s[0]] + rest[0]] + rest[1..]
  }

  /** `parts.join(sep)`. */
  function Join(parts: seq<string>, sep: char): (r: string)
  {
    if parts == [] then ""
    else if |parts| == 1 then parts[0]
    else parts[0] + [sep] + Join(parts[1..], sep)
  }

  // ---------------------------------------------------------------------------
  // GET

  /** The product filter: none, or the name contains the text, ignoring case. */
  datatype Filter = All | NameContains(text: string)

  /** The arguments of the page read; NaN paging values are None. */
  datatype ProductQuery = ProductQuery(
    where: Filter, skip: Option<int>, take: Option<int>, sortField: string, sortOrder: Option<string>)

  /** The GET reply's body. `totalPages` is None when it is not a finite number. */
  datatype Listing<P> = Listing(products: seq<P>, total: nat, totalPages: Option<int>, currentPage: Option<int>)

  const DefaultPage := "1"
  const DefaultLimit := "10"
  const DefaultSort := "name_asc"

  /** `searchParams.get(key)`: the value, or null. */
  function Param(params: map<string, string>, key: string): (r: Option<string>)
  {
    if key in params then Some(params[key]) else None
  }

  /** `value || fallback`: null and the empty string both fall back. */
  function OrDefault(value: Option<string>, fallback: string): (r: string)
  {
    if value.Some? && value.value != "" then value.value else fallback
  }

  function PageOf(params: map<string, string>): (r: Option<int>)
  {
    ParseInt(OrDefault(Param(params, "page"), DefaultPage))
  }

  function LimitOf(params: map<string, string>): (r: Option<int>)
  {
    ParseInt(OrDefault(Param(params, "limit"), DefaultLimit))
  }

  /** The first two pieces of the sort parameter: the field and the direction, if any. */
  function SortOf(params: map<string, string>): (string, Option<string>)
  {
    var pieces := Split(OrDefault(Param(params, "sortBy"), DefaultSort), '_');
    (pieces[0], if |pieces| >= 2 then Some(pieces[1]) else None)
  }

  /** A present, non-empty `q` filters by name. */
  function FilterOf(params: map<string, string>): (r: Filter)
  {
    match Param(params, "q")
    case Some(q) => if q != "" then NameContains(q) else All
    case None => All
  }

  /** The findMany arguments: skip `(page - 1) * limit` rows and take `limit`. */
  function ListQuery(params: map<string, string>): (r: ProductQuery)
  {
    var page, limit := PageOf(params), LimitOf(params);
    var skip := if page.Some? && limit.Some? then Some((page.value - 1) * limit.value) else None;
    ProductQuery(FilterOf(params), skip, limit, SortOf(params).0, SortOf(params).1)
  }

  /** `Math.ceil(a / b)` for a non-zero integer divisor. */
  function CeilDiv(a: int, b: int): (r: int)
    requires b != 0
  {
    if b > 0 then -((-a) / b) else -(a / (-b))
  }

  /** `Math.ceil(total / limit)`: not a finite number for a NaN or zero limit. */
  function TotalPages(total: nat, limit: Option<int>): (r: Option<int>)
  {
    if limit.Some? && limit.value != 0 then Some(CeilDiv(total, limit.value)) else None
  }

  /**
   * GET: the page read and the count (None when the database throws) share
   * the filter; the reply carries the page, the count, the page count and the
   * requested page.
   */
  function GetProducts<P>(
    params: map<string, string>,
    read: ProductQuery -> Option<seq<P>>, count: Filter -> Option<nat>): (r: Reply<Listing<P>>)
  {
    var query := ListQuery(params);
    var rows, total := read(query), count(query.where);
    if rows.None? || total.None? then InternalError()
    else Reply(200, Data(Listing(rows.value, total.value, TotalPages(total.value, LimitOf(params)), PageOf(params))))
  }

  // ---------------------------------------------------------------------------
  // POST

  /**
   * POST: only an administrator, then the body must be JSON (else the parse
   * throws), then it must pass productSchema; the validated data is created
   * as it is (`create` is None when the database throws).
   */
  function PostProduct<P>(
    session: Option<Session>, body: Option<Json>, isUrl: string -> bool,
    create: ProductData -> Option<P>): (r: Reply<P>)
  {
    if session.None? || !session.value.admin then Reply(403, Message(UnauthorizedMessage))
    else if body.None? then InternalError()
    else
      match ParseProduct(body.value, isUrl)
      case Failure(issues) => Reply(400, FieldErrors(FieldErrorMap(issues)))
      case Success(data) =>
        match create(data)
        case Some(p) => Reply(201, Data(p))
        case None => InternalError()
  }

  // ---------------------------------------------------------------------------
  // Properties: parseInt

  lemma {:induction false} DecimalValueDigits(n: nat)
    ensures AllDigits(Digits(n)) && DecimalValue(Digits(n)) == n
  {
    if n >= 10 {
      DecimalValueDigits(n / 10);
      var ds := Digits(n);
      assert ds[..|ds| - 1] == Digits(n / 10);
    }
  }

  lemma {:induction false} LeadingDigitsOf(ds: string, rest: string)
    requires AllDigits(ds)
    requires rest == [] || !IsDigit(rest[0])
    ensures LeadingDigits(ds + rest) == ds
  {
    if ds != [] {
      assert (ds + rest)[1..] == ds[1..] + rest;
      LeadingDigitsOf(ds[1..], rest);
    } else {
      assert ds + rest == rest;
    }
  }

  /** Trimming drops a prefix of white space and nothing else: the result is the rest of `s`. */
  lemma {:induction false} TrimStartSuffix(s: string)
    ensures TrimStart(s) == s[|s| - |TrimStart(s)|..]
    ensures forall i :: 0 <= i < |s| - |TrimStart(s)| ==> IsSpace(s[i])
  {
    if s != [] && IsSpace(s[0]) {
      var t := s[1..];
      TrimStartSuffix(t);
      var k := |t| - |TrimStart(t)|;
      assert TrimStart(s) == TrimStart(t) == t[k..] == s[k + 1..];
      forall i | 0 <= i < k + 1
        ensures IsSpace(s[i])
      {
        if i > 0 {
          assert s[i] == t[i - 1];
        }
      }
    }
  }

  /**
   * `parseInt` reads back what `String(n)` writes, and stops at the first
   * character that is not a digit: `"2abc"` reads as 2.
   */
  lemma ParseIntDigits(n: nat, rest: string)
    requires rest == [] || !IsDigit(rest[0])
    ensures ParseInt(Digits(n) + rest) == Some(n)
  {
    DecimalValueDigits(n);
    var ds := Digits(n);
    var t := ds + rest;
    LeadingDigitsOf(ds, rest);
    assert t[0] == ds[0] && IsDigit(t[0]);
    assert TrimStart(t) == t;
  }

  /** With a minus sign in front, the same digits read as the negative number. */
  lemma ParseIntNegative(n: nat, rest: string)
    requires rest == [] || !IsDigit(rest[0])
    ensures ParseInt("-" + (Digits(n) + rest)) == Some(-(n as int))
  {
    var u := Digits(n) + rest;
    ParseIntDigits(n, rest);
    assert IsDigit(u[0]);
    ParseIntMinus(u, n);
  }

  /** A minus sign in front of unsigned text negates what `parseInt` reads from it. */
  lemma ParseIntMinus(u: string, v: int)
    requires u == [] || (!IsSpace(u[0]) && u[0] != '-' && u[0] != '+')
    requires ParseInt(u) == Some(v)
    ensures ParseInt("-" + u) == Some(-v)
  {
    var t := "-" + u;
    assert !IsSpace(t[0]);
    assert TrimStart(t) == t;
    assert t[1..] == u;
    assert TrimStart(u) == u;
  }

  /** Text without a leading digit (after the sign) is NaN. */
  lemma ParseIntNaN()
    ensures ParseInt("abc") == None && ParseInt("") == None && ParseInt("-") == None
  {
    assert !IsSpace('a') && !IsSpace('-');
    assert TrimStart("abc") == "abc" && TrimStart("-") == "-";
  }

  // ---------------------------------------------------------------------------
  // Properties: split and join

  /** Joining the pieces gives back the split string. */
  lemma {:induction false} SplitJoin(s: string, sep: char)
    ensures Join(Split(s, sep), sep) == s
  {
    if s != [] {
      SplitJoin(s[1..], sep);
      var rest := Split(s[1..], sep);
      if s[0] == sep {
        assert Split(s, sep)[1..] == rest;
        assert s == [sep] + s[1..];
      } else if |rest| == 1 {
        assert s == [s[0]] + rest[0];
      } else {
        var r := Split(s, sep);
        assert r[1..] == rest[1..];
        assert Join(rest, sep) == rest[0] + [sep] + Join(rest[1..], sep);
        assert s == [s[0]] + s[1..];
      }
    }
  }

  /** A piece without the separator, then the separator, splits off as the first piece. */
  lemma {:induction false} SplitFirst(a: string, b: string, sep: char)
    requires sep !in a
    ensures Split(a + [sep] + b, sep) == [a] + Split(b, sep)
  {
    if a == [] {
      assert a + [sep] + b == [sep] + b;
      assert ([sep] + b)[1..] == b;
    } else {
      assert (a + [sep] + b)[1..] == a[1..] + [sep] + b;
      SplitFirst(a[1..], b, sep);
      assert a == [a[0]] + a[1..];
    }
  }

  /** Splitting a join of separator-free pieces gives back the pieces. */
  lemma {:induction false} JoinSplit(parts: seq<string>, sep: char)
    requires |parts| >= 1
    requires forall i :: 0 <= i < |parts| ==> sep !in parts[i]
    ensures Split(Join(parts, sep), sep) == parts
  {
    if |parts| == 1 {
      SplitNoSeparator(parts[0], sep);
    } else {
      JoinSplit(parts[1..], sep);
      SplitFirst(parts[0], Join(parts[1..], sep), sep);
      assert parts == [parts[0]] + parts[1..];
    }
  }

  lemma {:induction false} SplitNoSeparator(s: string, sep: char)
    requires sep !in s
    ensures Split(s, sep) == [s]
  {
    if s != [] {
      SplitNoSeparator(s[1..], sep);
      assert s == [s[0]] + s[1..];
    }
  }

  /** The default sort parameter splits into the name field and the ascending direction. */
  lemma SortNameAsc()
    ensures Split("name_asc", '_') == ["name", "asc"]
  {
    SplitFirst("name", "asc", '_');
    SplitNoSeparator("asc", '_');
    assert "name" + ['_'] + "asc" == "name_asc";
  }

  /** A field name holding an underscore is cut at it: "created_at_desc" sorts on "created", direction "at". */
  lemma SortFieldWithUnderscore()
    ensures Split("created_at_desc", '_') == ["created", "at", "desc"]
  {
    var a, b := "created", "at_desc";
    assert a + ['_'] + b == "created_at_desc";
    assert forall i :: 0 <= i < |a| ==> a[i] != '_';
    SplitAtDesc();
    SplitFirst(a, b, '_');
  }

  lemma SplitAtDesc()
    ensures Split("at_desc", '_') == ["at", "desc"]
  {
    SplitNoSeparator("desc", '_');
    SplitFirst("at", "desc", '_');
    assert "at" + ['_'] + "desc" == "at_desc";
  }

  // ---------------------------------------------------------------------------
  // Properties: the GET query

  /** Without parameters: no filter, skip 0, take 10, by name ascending; page 1 of ceil(total / 10). */
  lemma ListDefaults(total: nat)
    ensures ListQuery(map[]) == ProductQuery(All, Some(0), Some(10), "name", Some("asc"))
    ensures TotalPages(total, LimitOf(map[])) == Some(CeilDiv(total, 10))
    ensures PageOf(map[]) == Some(1)
  {
    DefaultPaging();
    assert PageOf(map[]) == ParseInt(DefaultPage);
    assert LimitOf(map[]) == ParseInt(DefaultLimit);
    SortNameAsc();
  }

  /** The default page and limit read as 1 and 10. */
  lemma DefaultPaging()
    ensures ParseInt(DefaultPage) == Some(1) && ParseInt(DefaultLimit) == Some(10)
  {
    ParseIntDigits(1, "");
    ParseIntDigits(10, "");
    assert Digits(1) + "" == DefaultPage;
    assert Digits(10) + "" == DefaultLimit;
  }

  /** An absent or empty `q` means no filter; any other `q` filters by that text. */
  lemma FilterChoice(params: map<string, string>)
    ensures FilterOf(params) == All <==> "q" !in params || params["q"] == ""
    ensures FilterOf(params).NameContains? ==> FilterOf(params).text == params["q"]
  {
  }

  /** Euclidean division pins the quotient between consecutive multiples. */
  lemma DivBetween(k: int, l: int, q: int)
    requires l >= 1 && q * l <= k < (q + 1) * l
    ensures k / l == q
  {
    var d, r := k / l, k % l;
    assert k == d * l + r && 0 <= r < l;
    if d < q {
      assert (d + 1) * l == d * l + l;
      MulMono(d + 1, q, l);
    } else if d > q {
      assert (q + 1) * l == q * l + l;
      MulMono(q + 1, d, l);
    }
  }

  /** Multiplying by a non-negative factor keeps the order. */
  lemma MulMono(a: int, b: int, l: int)
    requires a <= b && l >= 0
    ensures a * l <= b * l
  {
    var c := b - a;
    assert b * l == a * l + c * l;
  }

  /**
   * The window a page read covers, skip (p - 1) * l and take l, holds row k
   * (from 0) exactly when p is k / l + 1: every row is on one page and on no
   * other.
   */
  lemma WindowOfRow(p: int, l: int, k: nat)
    requires l >= 1
    ensures (p - 1) * l <= k < (p - 1) * l + l <==> p == k / l + 1
  {
    if (p - 1) * l <= k < (p - 1) * l + l {
      assert (p - 1) * l + l == p * l;
      DivBetween(k, l, p - 1);
    }
    if p == k / l + 1 {
      assert (k / l) * l <= k < (k / l) * l + l;
    }
  }

  /**
   * The read takes `limit` rows after skipping (page - 1) * limit; when page
   * or limit is NaN, so is the skip.
   */
  lemma PagingOf(params: map<string, string>)
    ensures ListQuery(params).take == LimitOf(params)
    ensures PageOf(params).Some? && LimitOf(params).Some? ==>
      ListQuery(params).skip == Some((PageOf(params).value - 1) * LimitOf(params).value)
    ensures PageOf(params).None? || LimitOf(params).None? ==> ListQuery(params).skip.None?
  {
  }

  /** For a positive limit, the page count is the number of pages whose window holds at least one row. */
  lemma TotalPagesCount(total: nat, l: int, p: int)
    requires l >= 1 && p >= 1
    ensures CeilDiv(total, l) >= 0
    ensures (p - 1) * l < total <==> p <= CeilDiv(total, l)
  {
    var c := CeilDiv(total, l);
    var d, r := (-(total as int)) / l, (-(total as int)) % l;
    assert -(total as int) == d * l + r && 0 <= r < l;
    assert c == -d && d * l == -(c * l);
    assert c * l - l < total <= c * l;
    assert (c - 1) * l == c * l - l;
    if c < 0 {
      MulMono(c, -1, l);
    }
    if p <= c {
      MulMono(p - 1, c - 1, l);
    } else {
      MulMono(c, p - 1, l);
    }
  }

  /** GET answers 500 when either read throws, and otherwise 200 with the page read for the derived query. */
  lemma GetProductsReply<P>(params: map<string, string>, read: ProductQuery -> Option<seq<P>>, count: Filter -> Option<nat>)
    ensures var r := GetProducts(params, read, count);
      && (r.status == 500 <==> read(ListQuery(params)).None? || count(FilterOf(params)).None?)
      && (r.status == 200 ==> r.payload.Data? && r.payload.value.products == read(ListQuery(params)).value
                              && r.payload.value.total == count(FilterOf(params)).value)
      && (r.status == 500 || r.status == 200)
  {
  }

  // ---------------------------------------------------------------------------
  // Properties: POST

  /** A caller who is not an administrator gets 403, and the body and the database are never looked at. */
  lemma PostProductForbidden<P>(
    session: Option<Session>, body: Option<Json>, body2: Option<Json>, isUrl: string -> bool,
    create: ProductData -> Option<P>, create2: ProductData -> Option<P>)
    requires session.None? || !session.value.admin
    ensures PostProduct(session, body, isUrl, create) == Reply(403, Message(UnauthorizedMessage))
    ensures PostProduct(session, body, isUrl, create) == PostProduct(session, body2, isUrl, create2)
  {
  }

  /** An administrator's invalid body gets 400 with the field errors, and nothing is created. */
  lemma PostProductInvalid<P>(
    session: Session, body: Json, isUrl: string -> bool,
    create: ProductData -> Option<P>, create2: ProductData -> Option<P>)
    requires session.admin && ParseProduct(body, isUrl).Failure?
    ensures PostProduct(Some(session), Some(body), isUrl, create)
         == Reply(400, FieldErrors(FieldErrorMap(ParseProduct(body, isUrl).issues)))
    ensures PostProduct(Some(session), Some(body), isUrl, create) == PostProduct(Some(session), Some(body), isUrl, create2)
  {
  }

  /** An administrator's valid body is created exactly as validated, and the created row comes back with 201. */
  lemma PostProductCreated<P>(session: Session, body: Json, isUrl: string -> bool, create: ProductData -> Option<P>)
    requires session.admin && ParseProduct(body, isUrl).Success?
    ensures var data := ParseProduct(body, isUrl).data;
      PostProduct(Some(session), Some(body), isUrl, create)
        == if create(data).Some? then Reply(201, Data(create(data).value)) else InternalError()
  {
  }

  /** The created-product test: its body is valid and is passed to the create unchanged. */
  lemma ValidProductExample(isUrl: string -> bool)
    requires isUrl("https://example.com/image.jpg")
    ensures ParseProduct(JObj(map["name" := JStr("Vela de Teste"),
                                  "description" := JStr("Uma descrição de teste para a vela."),
                                  "price" := JNum(50.0), "image" := JStr("https://example.com/image.jpg"),
                                  "stock" := JNum(100.0)]), isUrl)
         == Success(ProductData("Vela de Teste", "Uma descrição de teste para a vela.", 50.0,
                                "https://example.com/image.jpg", 100))
  {
    var f := map["name" := JStr("Vela de Teste"), "description" := JStr("Uma descrição de teste para a vela."),
                 "price" := JNum(50.0), "image" := JStr("https://example.com/image.jpg"), "stock" := JNum(100.0)];
    assert IsInteger(100.0) by { assert (100.0).Floor == 100; }
    assert |"Vela de Teste"| == 13;
    assert |"Uma descrição de teste para a vela."| == 35;
    assert Field(f, "name") == Some(JStr("Vela de Teste"));
    assert Field(f, "description") == Some(JStr("Uma descrição de teste para a vela."));
    assert Field(f, "price") == Some(JNum(50.0));
    assert Field(f, "image") == Some(JStr("https://example.com/image.jpg"));
    assert Field(f, "stock") == Some(JNum(100.0));
    ProductAccepted(f, isUrl);
    assert Satisfies("name", Field(f, "name"), isUrl);
    assert Satisfies("description", Field(f, "description"), isUrl);
    assert Satisfies("price", Field(f, "price"), isUrl);
    assert Satisfies("image", Field(f, "image"), isUrl);
    assert Satisfies("stock", Field(f, "stock"), isUrl);
  }
}
