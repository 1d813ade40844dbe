/** The printed form of process addresses and its parser. */
module ProcessAddress {
  import opened Basics
  import opened HostPort
  import opened Ordering

  /** IP addresses are known only by how they are parsed and printed. */
  datatype Net<!Ip> = Net(parse: string -> Option<Ip>, print_: Ip -> string)

  ghost predicate Lawful<Ip(!new)>(net: Net<Ip>) {
    forall ip :: net.parse(net.print_(ip)) == Some(ip) && BracketFree(net.print_(ip))
  }

  datatype Address<Ip> = Address(ip: Option<Ip>, name: string, port: int, flags: map<string, bool>, fromHostname: bool)

  datatype Result<+T> = Ok(value: T) | Error

  const FROM_HOSTNAME: string := "(fromHostname)"

  // ----- printing -----

  function MachineAddress<Ip>(net: Net<Ip>, a: Address<Ip>): string {
    if a.name != "" then a.name
    else match a.ip
      case None => "<nil>"
      case Some(ip) => net.print_(ip)
  }

  /** The flags that are set. */
  ghost predicate SetFlags(flags: map<string, bool>, fs: seq<string>) {
    forall f :: f in fs <==> f in flags && flags[f]
  }

  function Colons(fs: seq<string>): string {
    if fs == [] then "" else Colons(fs[..|fs| - 1]) + ":" + fs[|fs| - 1]
  }

  function HostAndPort<Ip>(net: Net<Ip>, a: Address<Ip>): string {
    JoinHostPort(MachineAddress(net, a), Itoa(a.port))
  }

  /** Host, port and flags. */
  function Body<Ip>(net: Net<Ip>, a: Address<Ip>, fs: seq<string>): string {
    HostAndPort(net, a) + Colons(fs)
  }

  function Text<Ip>(net: Net<Ip>, a: Address<Ip>, fs: seq<string>): string {
    if a.port == 0 then MachineAddress(net, a)
    else Body(net, a, fs) + if a.fromHostname then FROM_HOSTNAME else ""
  }

  method SortedFlags(flags: map<string, bool>) returns (fs: seq<string>)
    ensures SetFlags(flags, fs) && Ascending(fs)
  {
    fs := SortedKeys(set f | f in flags && flags[f]);
  }

  method Join(fs: seq<string>) returns (s: string)
    requires fs != []
    ensures ":" + s == Colons(fs)
  {
    s := fs[0];
    assert fs[..1][..0] == [] && fs[..1][0] == fs[0];
    for i := 1 to |fs|
      invariant ":" + s == Colons(fs[..i])
    {
      assert fs[..i + 1][..i] == fs[..i];
      assert ":" + (s + ":" + fs[i]) == (":" + s) + ":" + fs[i];
      s := s + ":" + fs[i];
    }
    assert fs[..|fs|] == fs;
  }

  method String<Ip>(net: Net<Ip>, a: Address<Ip>) returns (s: string)
    ensures exists fs :: SetFlags(a.flags, fs) && Ascending(fs) && s == Text(net, a, fs)
  {
    var fs := SortedFlags(a.flags);
    if a.port == 0 {
      return MachineAddress(net, a);
    }
    s := JoinHostPort(MachineAddress(net, a), Itoa(a.port));
    if |fs| > 0 {
      var joined := Join(fs);
      s := s + (":" + joined);
    }
    assert s == Body(net, a, fs);
    if a.fromHostname {
      s := s + FROM_HOSTNAME;
    }
  }

  // ----- parsing -----

  function Located<Ip>(net: Net<Ip>, a: Address<Ip>, host: string): Address<Ip> {
    match net.parse(host)
    case Some(ip) => a.(ip := Some(ip))
    case None => a.(ip := None, name := host)
  }

  /** Takes flags off the end until a host and a port are left. */
  function Strip<Ip>(net: Net<Ip>, text: string, a: Address<Ip>): (r: Result<Address<Ip>>)
    ensures r.Ok? ==> r.value.fromHostname == a.fromHostname
    decreases |text|
  {
    if text == "" then Ok(a)
    else match SplitHostPort(text)
      case Some(pair) =>
        (match Atoi(pair.1)
         case Some(port) => Ok(Located(net, a, pair.0).(port := port))
         case None => Error)
      case None =>
        var i := LastIndex(text, ':');
        if i < 0 then Ok(a)
        else Strip(net, text[..i], a.(flags := a.flags[text[i + 1..] := true]))
  }

  function Parse<Ip>(net: Net<Ip>, text: string): Result<Address<Ip>> {
    if text == "" then Error
    else
      var fromHostname := EndsWith(text, FROM_HOSTNAME);
      var body := if fromHostname then text[..|text| - |FROM_HOSTNAME|] else text;
      var a := Address(None, "", 0, map[], fromHostname);
      match net.parse(body)
      case Some(ip) => Ok(a.(ip := Some(ip)))
      case None => if LastIndex(body, ':') < 0 then Ok(a.(name := body)) else Strip(net, body, a)
  }

  method ParseProcessAddress<Ip>(net: Net<Ip>, text: string) returns (r: Result<Address<Ip>>)
    ensures r == Parse(net, text)
  {
    var a: Address<Ip> := Address(None, "", 0, map[], false);
    if text == "" {
      return Error;
    }
    var rest := text;
    if EndsWith(text, FROM_HOSTNAME) {
      rest := text[..|text| - |FROM_HOSTNAME|];
      a := a.(fromHostname := true);
    }
    var ip := net.parse(rest);
    if ip.Some? {
      return Ok(a.(ip := ip));
    }
    if LastIndex(rest, ':') == -1 {
      return Ok(a.(name := rest));
    }
    while rest != ""
      invariant Strip(net, rest, a) == Parse(net, text)
      decreases |rest|
    {
      var pair := SplitHostPort(rest);
      if pair.Some? {
        var port := Atoi(pair.value.1);
        if port.None? {
          return Error;
        }
        return Ok(Located(net, a, pair.value.0).(port := port.value));
      }
      var i := LastIndex(rest, ':');
      if i == -1 {
        break;
      }
      a := a.(flags := a.flags[rest[i + 1..] := true]);
      rest := rest[..i];
    }
    r := Ok(a);
  }

  // ----- the round trip -----

  function AllSet(fs: seq<string>): (m: map<string, bool>)
    ensures forall f :: f in m <==> f in fs
    ensures forall f :: f in m ==> m[f]
  {
    map f | f in fs :: true
  }

  lemma LastColon(front: string, flag: string)
    requires ':' !in flag
    ensures LastIndex(front + ":" + flag, ':') == |front|
  {
    var s := front + ":" + flag;
    assert s[|front|] == ':';
    assert s[|front| + 1..] == flag;
  }

  lemma StripFlag<Ip>(net: Net<Ip>, front: string, flag: string, a: Address<Ip>)
    requires ':' !in flag && SplitHostPort(front + ":" + flag).None?
    ensures Strip(net, front + ":" + flag, a) == Strip(net, front, a.(flags := a.flags[flag := true]))
  {
    var s := front + ":" + flag;
    LastColon(front, flag);
    assert s[..|front|] == front && s[|front| + 1..] == flag;
  }

  lemma AllSetSplit(m: map<string, bool>, front: seq<string>, last: string)
    ensures m[last := true] + AllSet(front) == m + AllSet(front + [last])
  {
  }

  /** Stripping takes all flags off and stops at the host and port. */
  lemma {:induction false} StripTakesFlags<Ip>(net: Net<Ip>, host: string, port: string, fs: seq<string>,
                                               a: Address<Ip>)
    requires BracketFree(host) && forall f :: f in fs ==> ':' !in f
    ensures Strip(net, JoinHostPort(host, port) + Colons(fs), a) ==
            Strip(net, JoinHostPort(host, port), a.(flags := a.flags + AllSet(fs)))
    decreases |fs|
  {
    var base := JoinHostPort(host, port);
    if fs == [] {
      assert base + Colons(fs) == base;
      assert a.flags + AllSet(fs) == a.flags;
    } else {
      var front, last := fs[..|fs| - 1], fs[|fs| - 1];
      assert fs == front + [last];
      assert base + Colons(fs) == (base + Colons(front)) + ":" + last;
      NotSplit(host, port, fs);
      StripFlag(net, base + Colons(front), last, a);
      StripTakesFlags(net, host, port, front, a.(flags := a.flags[last := true]));
      AllSetSplit(a.flags, front, last);
    }
  }

  lemma {:induction false} StartsWithColon(fs: seq<string>) returns (rest: string)
    requires fs != []
    ensures Colons(fs) == ":" + rest
  {
    if |fs| == 1 {
      rest := fs[0];
    } else {
      var front := StartsWithColon(fs[..|fs| - 1]);
      rest := front + ":" + fs[|fs| - 1];
    }
  }

  lemma NotSplit(host: string, port: string, fs: seq<string>)
    requires BracketFree(host) && fs != []
    ensures SplitHostPort(JoinHostPort(host, port) + Colons(fs)).None?
  {
    var rest := StartsWithColon(fs);
    assert JoinHostPort(host, port) + Colons(fs) == JoinHostPort(host, port) + ":" + rest;
    SplitTooManyColons(host, port, rest);
  }

  /** Addresses whose host is an IP address or a name without brackets and whose port is printed. */
  predicate Addressable<Ip>(a: Address<Ip>) {
    && (a.ip.Some? <==> a.name == "") && BracketFree(a.name)
    && a.port != 0 && Int64(a.port)
  }

  /** All flags are set and free of colons, the printed form is neither an IP address itself nor ends in the
      hostname marker by accident, and a name is not an IP address. */
  predicate Printable<Ip>(net: Net<Ip>, a: Address<Ip>, fs: seq<string>) {
    && (forall f :: f in a.flags ==> a.flags[f] && ':' !in f)
    && net.parse(Body(net, a, fs)).None?
    && (a.name != "" ==> net.parse(a.name).None?)
    && (a.fromHostname || !EndsWith(Body(net, a, fs), FROM_HOSTNAME))
  }

  predicate PlainFlags(flags: map<string, bool>) {
    forall f :: f in flags ==> flags[f] && ':' !in f
  }

  /** Without another flag to take off, the flags stay. */
  lemma StripEnds<Ip>(net: Net<Ip>, text: string, a: Address<Ip>)
    requires text == "" || SplitHostPort(text).Some? || LastIndex(text, ':') < 0
    ensures var r := Strip(net, text, a);
            r.Ok? ==> r.value.flags == a.flags
  {
  }

  lemma PlainFlagsGrow(flags: map<string, bool>, text: string)
    requires PlainFlags(flags) && LastIndex(text, ':') >= 0
    ensures PlainFlags(flags[text[LastIndex(text, ':') + 1..] := true])
  {
  }

  lemma {:induction false} StripFlagsPlain<Ip>(net: Net<Ip>, text: string, a: Address<Ip>)
    requires PlainFlags(a.flags)
    ensures var r := Strip(net, text, a); r.Ok? ==> PlainFlags(r.value.flags)
    decreases |text|
  {
    var i := LastIndex(text, ':');
    if text != "" && SplitHostPort(text).None? && i >= 0 {
      PlainFlagsGrow(a.flags, text);
      StripFlagsPlain(net, text[..i], a.(flags := a.flags[text[i + 1..] := true]));
    } else {
      StripEnds(net, text, a);
    }
  }

  /** Every parsed flag is set and free of colons. */
  lemma ParsedFlagsPlain<Ip>(net: Net<Ip>, text: string)
    ensures var r := Parse(net, text);
            r.Ok? ==> forall f :: f in r.value.flags ==> r.value.flags[f] && ':' !in f
  {
    var fromHostname := EndsWith(text, FROM_HOSTNAME);
    var body := if fromHostname then text[..|text| - |FROM_HOSTNAME|] else text;
    var a: Address<Ip> := Address(None, "", 0, map[], fromHostname);
    if text == "" {
      assert Parse(net, text).Error?;
    } else if net.parse(body).Some? {
      assert Parse(net, text) == Ok(a.(ip := net.parse(body)));
    } else if LastIndex(body, ':') < 0 {
      assert Parse(net, text) == Ok(a.(name := body));
    } else {
      assert Parse(net, text) == Strip(net, body, a);
      StripFlagsPlain(net, body, a);
    }
  }

  lemma BodyHasColon<Ip>(net: Net<Ip>, a: Address<Ip>, fs: seq<string>)
    ensures ':' in Body(net, a, fs) && LastIndex(Body(net, a, fs), ':') >= 0
  {
    var host := MachineAddress(net, a);
    var body := Body(net, a, fs);
    if ':' in host {
      assert body[|host| + 2] == ':';
    } else {
      assert body[|host|] == ':';
    }
  }

  /** The text without the hostname marker. */
  function Unmarked(text: string): string {
    if EndsWith(text, FROM_HOSTNAME) then text[..|text| - |FROM_HOSTNAME|] else text
  }

  lemma TextUnmarked<Ip>(net: Net<Ip>, a: Address<Ip>, fs: seq<string>)
    requires a.port != 0
    ensures EndsWith(Text(net, a, fs), FROM_HOSTNAME) <==> a.fromHostname || EndsWith(Body(net, a, fs), FROM_HOSTNAME)
    ensures a.fromHostname || !EndsWith(Body(net, a, fs), FROM_HOSTNAME)
            ==> Unmarked(Text(net, a, fs)) == Body(net, a, fs)
  {
    var body, text := Body(net, a, fs), Text(net, a, fs);
    if a.fromHostname {
      assert text[|text| - |FROM_HOSTNAME|..] == FROM_HOSTNAME;
      assert text[..|text| - |FROM_HOSTNAME|] == body;
    } else {
      assert text == body;
    }
  }

  /** What parsing the printed form comes down to, unless a flag imitates the marker. */
  lemma ParseText<Ip>(net: Net<Ip>, a: Address<Ip>, fs: seq<string>)
    requires a.port != 0 && (a.fromHostname || !EndsWith(Body(net, a, fs), FROM_HOSTNAME))
    ensures var body := Body(net, a, fs);
            var start: Address<Ip> := Address(None, "", 0, map[], a.fromHostname);
            Parse(net, Text(net, a, fs)) ==
            match net.parse(body)
            case Some(ip) => Ok(start.(ip := Some(ip)))
            case None => Strip(net, body, start)
  {
    BodyHasColon(net, a, fs);
    TextUnmarked(net, a, fs);
  }

  /** The parsed marker is the printed one, or that of a flag which imitates it. */
  lemma ParseMarker<Ip>(net: Net<Ip>, a: Address<Ip>, fs: seq<string>)
    requires a.port != 0 && Parse(net, Text(net, a, fs)).Ok?
    ensures Parse(net, Text(net, a, fs)).value.fromHostname
            <==> a.fromHostname || EndsWith(Body(net, a, fs), FROM_HOSTNAME)
  {
    TextUnmarked(net, a, fs);
  }

  lemma AllSetIs(flags: map<string, bool>, fs: seq<string>)
    requires SetFlags(flags, fs) && forall f :: f in flags ==> flags[f]
    ensures map[] + AllSet(fs) == flags
  {
  }

  lemma HostBracketFree<Ip(!new)>(net: Net<Ip>, a: Address<Ip>)
    requires Lawful(net) && Addressable(a)
    ensures BracketFree(MachineAddress(net, a))
  {
  }

  /** Stripping the printed form finds the host, the port and the flags. */
  lemma StripBody<Ip(!new)>(net: Net<Ip>, a: Address<Ip>, fs: seq<string>, start: Address<Ip>)
    requires Lawful(net) && Addressable(a) && SetFlags(a.flags, fs) && start.flags == map[]
    requires forall f :: f in a.flags ==> a.flags[f] && ':' !in f
    ensures Strip(net, Body(net, a, fs), start)
            == Ok(Located(net, start.(flags := a.flags), MachineAddress(net, a)).(port := a.port))
  {
    HostBracketFree(net, a);
    AllSetIs(a.flags, fs);
    StripTakesFlags(net, MachineAddress(net, a), Itoa(a.port), fs, start);
    StripHost(net, MachineAddress(net, a), a.port, start.(flags := a.flags));
  }

  lemma StripHost<Ip>(net: Net<Ip>, host: string, port: int, a: Address<Ip>)
    requires BracketFree(host) && Int64(port)
    ensures Strip(net, JoinHostPort(host, Itoa(port)), a) == Ok(Located(net, a, host).(port := port))
  {
    ItoaPlain(port);
    AtoiItoa(port);
    SplitJoin(host, Itoa(port));
  }

  lemma PrintableRoundTrips<Ip(!new)>(net: Net<Ip>, a: Address<Ip>, fs: seq<string>)
    requires Lawful(net) && Addressable(a) && SetFlags(a.flags, fs) && Printable(net, a, fs)
    ensures Parse(net, Text(net, a, fs)) == Ok(a)
  {
    ParseText(net, a, fs);
    StripBody(net, a, fs, Address(None, "", 0, map[], a.fromHostname));
  }

  lemma RoundTripIsPrintable<Ip(!new)>(net: Net<Ip>, a: Address<Ip>, fs: seq<string>)
    requires Lawful(net) && Addressable(a) && SetFlags(a.flags, fs) && Parse(net, Text(net, a, fs)) == Ok(a)
    ensures Printable(net, a, fs)
  {
    ParsedFlagsPlain(net, Text(net, a, fs));
    ParseMarker(net, a, fs);
    ParseText(net, a, fs);
    StripBody(net, a, fs, Address(None, "", 0, map[], a.fromHostname));
  }

  /** Parsing the printed form of an address gives the address back exactly when it is printable. */
  lemma RoundTrip<Ip(!new)>(net: Net<Ip>, a: Address<Ip>, fs: seq<string>)
    requires Lawful(net) && Addressable(a) && SetFlags(a.flags, fs)
    ensures Parse(net, Text(net, a, fs)) == Ok(a) <==> Printable(net, a, fs)
  {
    if Printable(net, a, fs) {
      PrintableRoundTrips(net, a, fs);
    }
    if Parse(net, Text(net, a, fs)) == Ok(a) {
      RoundTripIsPrintable(net, a, fs);
    }
  }

  // ----- addresses without a port -----

  /** Without a port only the host is printed, so flags and the marker are lost; a name must not be read as an IP
      address, as anything with a port or as marked. */
  predicate PrintableAlone<Ip>(net: Net<Ip>, a: Address<Ip>) {
    && a.flags == map[] && !a.fromHostname
    && (a.name != "" ==> net.parse(a.name).None? && ':' !in a.name && !EndsWith(a.name, FROM_HOSTNAME))
  }

  lemma {:induction false} StripShortens<Ip>(net: Net<Ip>, text: string, a: Address<Ip>)
    requires ':' in text
    ensures var r := Strip(net, text, a); r.Ok? && r.value.name != a.name ==> |r.value.name| < |text|
    decreases |text|
  {
    var i := LastIndex(text, ':');
    if text != "" && SplitHostPort(text).None? && i >= 0 {
      var rest, a' := text[..i], a.(flags := a.flags[text[i + 1..] := true]);
      if ':' in rest {
        StripShortens(net, rest, a');
      } else {
        assert LastIndex(rest, ':') < 0;
        assert Strip(net, rest, a') == Ok(a');
      }
    }
  }

  /** An address without a port is printed as its host, and parsing this gives the address back exactly if it is
      printable alone. */
  lemma RoundTripAlone<Ip(!new)>(net: Net<Ip>, a: Address<Ip>, fs: seq<string>)
    requires Lawful(net) && (a.ip.Some? <==> a.name == "") && a.port == 0 && SetFlags(a.flags, fs)
    requires a.ip.Some? ==> net.print_(a.ip.value) != "" && !EndsWith(net.print_(a.ip.value), FROM_HOSTNAME)
    ensures Text(net, a, fs) == if a.name != "" then a.name else net.print_(a.ip.value)
    ensures Parse(net, Text(net, a, fs)) == Ok(a) <==> PrintableAlone(net, a)
  {
    var host := MachineAddress(net, a);
    if EndsWith(host, FROM_HOSTNAME) {
      ParsedMarker(net, host);
    } else if a.name != "" && ':' in a.name && net.parse(a.name).None? {
      StripShortens(net, host, Address(None, "", 0, map[], false));
    }
  }

  /** A text that ends in the marker is read as an address with the marker, and with a shorter host. */
  lemma ParsedMarker<Ip(!new)>(net: Net<Ip>, text: string)
    requires EndsWith(text, FROM_HOSTNAME)
    ensures Parse(net, text).Ok? ==> Parse(net, text).value.fromHostname
    ensures Parse(net, text).Ok? ==> |Parse(net, text).value.name| < |text|
  {
    var body := text[..|text| - |FROM_HOSTNAME|];
    var a: Address<Ip> := Address(None, "", 0, map[], true);
    if ':' in body {
      StripShortens(net, body, a);
    }
  }

  /** A flag that ends in the hostname marker is not printable on an address without the marker. */
  lemma MarkerFlagIsLost<Ip(!new)>(net: Net<Ip>, a: Address<Ip>, flag: string)
    requires Lawful(net) && Addressable(a) && !a.fromHostname && a.flags == map[flag := true]
             && EndsWith(flag, FROM_HOSTNAME)
    ensures Parse(net, Text(net, a, [flag])) != Ok(a)
  {
    assert Colons([flag]) == (Colons([]) + ":") + flag;
    assert Body(net, a, [flag]) == (HostAndPort(net, a) + (Colons([]) + ":")) + flag;
    EndsWithMore(HostAndPort(net, a) + (Colons([]) + ":"), flag, FROM_HOSTNAME);
    if Parse(net, Text(net, a, [flag])).Ok? {
      ParseMarker(net, a, [flag]);
    }
  }

  lemma EndsWithMore(front: string, s: string, suffix: string)
    requires EndsWith(s, suffix)
    ensures EndsWith(front + s, suffix)
  {
    var text := front + s;
    assert text[|text| - |suffix|..] == s[|s| - |suffix|..];
  }

  /** A one-digit name with six hexadecimal flags prints like an IPv6 address, which has no port and no flags. */
  lemma HexFlagsAreLost<Ip(!new)>(net: Net<Ip>, a: Address<Ip>)
    requires a.name == "1" && a.port == 2 && !a.fromHostname && net.parse("1:2:a:b:c:d:e:f").Some?
    ensures Parse(net, Text(net, a, ["a", "b", "c", "d", "e", "f"])) != Ok(a)
  {
    var fs := ["a", "b", "c", "d", "e", "f"];
    assert Itoa(2) == "2";
    SixFlags(fs);
    assert Body(net, a, fs) == "1:2:a:b:c:d:e:f";
    assert !EndsWith(Body(net, a, fs), FROM_HOSTNAME);
    ParseText(net, a, fs);
  }

  lemma SixFlags(fs: seq<string>)
    requires fs == ["a", "b", "c", "d", "e", "f"]
    ensures Colons(fs) == ":a:b:c:d:e:f"
  {
    assert fs[..5] == ["a", "b", "c", "d", "e"];
    assert fs[..5][..4] == ["a", "b", "c", "d"];
    assert fs[..5][..4][..3] == ["a", "b", "c"];
    assert fs[..5][..4][..3][..2] == ["a", "b"];
    assert fs[..5][..4][..3][..2][..1] == ["a"];
    assert Colons(["a"]) == ":a";
    assert Colons(["a", "b"]) == ":a:b";
    assert Colons(["a", "b", "c"]) == ":a:b:c";
    assert Colons(["a", "b", "c", "d"]) == ":a:b:c:d";
    assert Colons(["a", "b", "c", "d", "e"]) == ":a:b:c:d:e";
  }
}
