/** Request URLs as the list pages build them with template literals:
    a path and `name=value` query parameters joined by `&`, integers
    written in decimal as JavaScript prints them. */
module Urls {
  import opened Common

  /** The API host. The request wrapper declares it privately; the pages
      import a constant of the same name from a configuration module that
      is not part of this model, and the two are taken to be equal. */
  const ApiBaseUrl := "http://localhost:8080"

  /** The digit character for `d`. */
  function Digit(d: nat): char
    requires d < 10
  {
    (48 + d) as char
  }

  predicate IsDigit(c: char) {
    '0' <= c <= '9'
  }

  predicate AllDigits(s: string) {
    forall i :: 0 <= i < |s| ==> IsDigit(s[i])
  }

  /** `${n}` for a natural number: its decimal digits, most significant first. */
  function NatToDecimal(n: nat): (r: string)
    ensures |r| >= 1 && AllDigits(r)
    ensures r[0] == '0' ==> n == 0
    decreases n
  {
    if n < 10 then [Digit(n)] else NatToDecimal(n / 10) + [Digit(n % 10)]
  }

  /** The number a string of decimal digits spells. */
  function DecimalToNat(s: string): nat
    requires AllDigits(s)
  {
    if s == [] then 0
    else DecimalToNat(s[..|s| - 1]) * 10 + (s[|s| - 1] as int - 48)
  }

  /** `${i}` for an integer: a minus sign before the digits of a negative one. */
  function IntToDecimal(i: int): string {
    if i < 0 then "-" + NatToDecimal(-i) else NatToDecimal(i)
  }

  /** How a server reads an integer parameter back. */
  function ParseInt(s: string): Option<int> {
    if |s| > 0 && s[0] == '-' then
      if |s| > 1 && AllDigits(s[1..]) then Some(0 - DecimalToNat(s[1..]) as int) else None
    else if |s| > 0 && AllDigits(s) then Some(DecimalToNat(s))
    else None
  }

  lemma {:induction false} NatRoundTrip(n: nat)
    ensures DecimalToNat(NatToDecimal(n)) == n
    decreases n
  {
    if n >= 10 {
      var r := NatToDecimal(n);
      assert r[..|r| - 1] == NatToDecimal(n / 10);
      NatRoundTrip(n / 10);
    }
  }

  /** Every integer written into a URL is read back as itself. */
  lemma IntRoundTrip(i: int)
    ensures ParseInt(IntToDecimal(i)) == Some(i)
  {
    var s := IntToDecimal(i);
    if i < 0 {
      assert s[0] == '-' && s[1..] == NatToDecimal(-i);
      NatRoundTrip(-i);
    } else {
      assert IsDigit(s[0]);
      NatRoundTrip(i);
    }
  }

  datatype Param = Param(name: string, value: string)

  datatype Url = Url(path: string, query: seq<Param>)

  /** The value of the first parameter called `name`. */
  function Lookup(query: seq<Param>, name: string): (r: Option<string>)
    ensures r.None? <==> forall i :: 0 <= i < |query| ==> query[i].name != name
    ensures r.Some? ==> exists i :: 0 <= i < |query| && query[i] == Param(name, r.value)
  {
    if query == [] then None
    else if query[0].name == name then Some(query[0].value)
    else Lookup(query[1..], name)
  }

  /** Looking a name up in two parameter lists in turn. */
  lemma {:induction false} LookupAppend(a: seq<Param>, b: seq<Param>, name: string)
    ensures Lookup(a + b, name) == if Lookup(a, name).Some? then Lookup(a, name) else Lookup(b, name)
  {
    if a != [] {
      assert (a + b)[1..] == a[1..] + b;
      LookupAppend(a[1..], b, name);
    } else {
      assert a + b == b;
    }
  }

  /** `LookupAppend` for every name at once. */
  lemma LookupAppendAll(a: seq<Param>, b: seq<Param>)
    ensures forall name :: Lookup(a + b, name) == if Lookup(a, name).Some? then Lookup(a, name) else Lookup(b, name)
  {
    forall name {
      LookupAppend(a, b, name);
    }
  }

  function JoinQuery(query: seq<Param>): string {
    if query == [] then ""
    else if |query| == 1 then query[0].name + "=" + query[0].value
    else query[0].name + "=" + query[0].value + "&" + JoinQuery(query[1..])
  }

  /** The URL string `fetch` receives. */
  function Render(u: Url): string {
    if u.query == [] then u.path else u.path + "?" + JoinQuery(u.query)
  }

  /** `?page=${page - 1}&size=${size}`: the server's pages count from zero. */
  function PageQuery(page: int, size: int): (q: seq<Param>)
    ensures Lookup(q, "page").Some? && ParseInt(Lookup(q, "page").value) == Some(page - 1)
    ensures Lookup(q, "size").Some? && ParseInt(Lookup(q, "size").value) == Some(size)
    ensures forall name :: name != "page" && name != "size" ==> Lookup(q, name).None?
  {
    IntRoundTrip(page - 1);
    IntRoundTrip(size);
    [Param("page", IntToDecimal(page - 1)), Param("size", IntToDecimal(size))]
  }

  /** The first page of ten is requested as page zero. */
  lemma FirstPageQuery()
    ensures PageQuery(1, 10) == [Param("page", "0"), Param("size", "10")]
  {
    assert Digit(0) == '0' && Digit(1) == '1';
    assert NatToDecimal(10) == NatToDecimal(1) + [Digit(0)] == "10";
  }

  /** The first page of ten under any path renders as `?page=0&size=10`. */
  lemma FirstPageRender(path: string)
    ensures Render(Url(path, PageQuery(1, 10))) == path + "?page=0&size=10"
  {
    FirstPageQuery();
    var q := [Param("page", "0"), Param("size", "10")];
    assert q[1..] == [Param("size", "10")];
    assert JoinQuery(q[1..]) == "size=10";
    assert JoinQuery(q) == "page=0" + "&" + "size=10";
    assert "page=0" + "&" + "size=10" == "page=0&size=10";
    assert Render(Url(path, q)) == path + "?" + "page=0&size=10";
  }
}
