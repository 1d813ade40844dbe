/** The parts of Go's `net`, `strings` and `strconv` that process addresses rest on. */
module HostPort {
  import opened Basics

  /** The last position of `ch`, or -1. */
  function LastIndex(s: string, ch: char): (i: int)
    ensures -1 <= i < |s|
    ensures i >= 0 ==> s[i] == ch
    ensures forall j :: i < j < |s| ==> s[j] != ch
  {
    if s == "" then -1 else if s[|s| - 1] == ch then |s| - 1 else LastIndex(s[..|s| - 1], ch)
  }

  /** The first position of `ch`, or -1. */
  function Index(s: string, ch: char): (i: int)
    ensures -1 <= i < |s|
    ensures i >= 0 ==> s[i] == ch
    ensures forall j :: 0 <= j < (if i < 0 then |s| else i) ==> s[j] != ch
  {
    if s == "" then -1 else if s[0] == ch then 0
    else var i := Index(s[1..], ch); if i < 0 then -1 else i + 1
  }

  predicate EndsWith(s: string, suffix: string) {
    |s| >= |suffix| && s[|s| - |suffix|..] == suffix
  }

  predicate BracketFree(s: string) {
    '[' !in s && ']' !in s
  }

  function JoinHostPort(host: string, port: string): string {
    if ':' in host then "[" + host + "]:" + port else host + ":" + port
  }

  /** The host, without brackets, and the port behind the last colon. */
  function SplitHostPort(s: string): Option<(string, string)> {
    var i := LastIndex(s, ':');
    if i < 0 then None
    else if s[0] == '[' then
      var end := Index(s, ']');
      if end < 0 || end + 1 != i || '[' in s[1..] || ']' in s[end + 1..] then None
      else Some((s[1..end], s[i + 1..]))
    else if ':' in s[..i] || !BracketFree(s) then None
    else Some((s[..i], s[i + 1..]))
  }

  lemma SplitJoin(host: string, port: string)
    requires BracketFree(host) && BracketFree(port) && ':' !in port
    ensures SplitHostPort(JoinHostPort(host, port)) == Some((host, port))
  {
    var s := JoinHostPort(host, port);
    var i := LastIndex(s, ':');
    if ':' in host {
      assert s == "[" + host + "]" + ":" + port;
      assert s[|host| + 2] == ':' && s[|host| + 1] == ']';
      assert s[|host| + 3..] == port && i == |host| + 2;
      var end := Index(s, ']');
      assert forall j :: 1 <= j <= |host| ==> s[j] == host[j - 1];
      assert end == |host| + 1;
      assert s[1..] == host + "]:" + port && s[end + 1..] == ":" + port;
      assert s[1..end] == host;
    } else {
      assert s[|host|] == ':' && s[|host| + 1..] == port && i == |host|;
      assert s[..i] == host;
    }
  }

  /** With a further colon behind the port there are too many of them. */
  lemma SplitTooManyColons(host: string, port: string, rest: string)
    requires BracketFree(host)
    ensures SplitHostPort(JoinHostPort(host, port) + ":" + rest).None?
  {
    var base := JoinHostPort(host, port);
    var s := base + ":" + rest;
    var i := LastIndex(s, ':');
    assert s[|base|] == ':' && i >= |base|;
    if ':' in host {
      assert s == "[" + host + "]" + (":" + port + ":" + rest);
      assert s[|host| + 1] == ']';
      assert forall j :: 1 <= j <= |host| ==> s[j] == host[j - 1];
      assert Index(s, ']') == |host| + 1;
    } else {
      assert s[..i][|host|] == ':';
      assert s[0] == if host == "" then ':' else host[0];
    }
  }

  // ----- numbers -----

  const MAX_INT64: int := 0x7fff_ffff_ffff_ffff

  predicate Int64(n: int) {
    -MAX_INT64 - 1 <= n <= MAX_INT64
  }

  function Digits(n: nat): (s: string)
    ensures s != "" && forall i :: 0 <= i < |s| ==> '0' <= s[i] <= '9'
  {
    var digit := [('0' as int + n % 10) as char];
    if n < 10 then digit else Digits(n / 10) + digit
  }

  function Itoa(n: int): string {
    if n < 0 then "-" + Digits(-n) else Digits(n)
  }

  predicate IsNumber(s: string) {
    s != "" && forall i :: 0 <= i < |s| ==> '0' <= s[i] <= '9'
  }

  function Value(s: string): int
    requires forall i :: 0 <= i < |s| ==> '0' <= s[i] <= '9'
  {
    if s == "" then 0 else 10 * Value(s[..|s| - 1]) + (s[|s| - 1] as int - '0' as int)
  }

  function Atoi(s: string): Option<int> {
    var digits := if s != "" && (s[0] == '-' || s[0] == '+') then s[1..] else s;
    if !IsNumber(digits) then None
    else
      var n := if s[0] == '-' then -Value(digits) else Value(digits);
      if Int64(n) then Some(n) else None
  }

  lemma {:induction false} ValueDigits(n: nat)
    ensures Value(Digits(n)) == n
  {
    if n >= 10 {
      ValueDigits(n / 10);
      var s := Digits(n);
      assert s[..|s| - 1] == Digits(n / 10);
    }
  }

  lemma DigitsPlain(n: nat)
    ensures IsNumber(Digits(n)) && BracketFree(Digits(n)) && ':' !in Digits(n)
    ensures Digits(n)[0] != '-' && Digits(n)[0] != '+'
  {
    var s := Digits(n);
    assert '0' <= s[0] <= '9';
  }

  lemma AtoiItoa(n: int)
    requires Int64(n)
    ensures Atoi(Itoa(n)) == Some(n)
  {
    var size := if n < 0 then -n else n;
    DigitsPlain(size);
    ValueDigits(size);
    if n < 0 {
      assert Itoa(n)[1..] == Digits(size);
    }
  }

  lemma ItoaPlain(n: int)
    ensures BracketFree(Itoa(n)) && ':' !in Itoa(n)
  {
    DigitsPlain(if n < 0 then -n else n);
  }
}
