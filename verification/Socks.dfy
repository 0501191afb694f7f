/** The byte-at-a-time SOCKS5 parser of the sample proxy (samples/socks5-proxy/s5.c): what it
makes of a client's messages (sections 3 to 5 of RFC 1928, section 2 of RFC 1929).
*/
module Socks {

  type Byte = x: int | 0 <= x < 256

  const FIELD := 257  // the size of the username, password and address buffers

  datatype State =
    | Version | NMethods | Methods
    | PwVersion | PwUserLen | PwUsername | PwPassLen | PwPassword
    | ReqVersion | ReqCmd | ReqReserved | ReqAtyp | ReqAtypHost | ReqDaddr | ReqDport0 | ReqDport1
    | Dead

  datatype Event = Ok | BadVersion | BadCmd | BadAtyp | AuthSelect | AuthVerify | ExecCmd

  datatype Auth = AuthNone | AuthGssapi | AuthPasswd
  datatype Command = TcpConnect | TcpBind | UdpAssoc
  datatype AddressType = Ipv4 | Ipv6 | Host

  // The scalar fields of s5_ctx; `methods` is a mask of authentication methods.
  datatype Scalars = Scalars(
    state: State, arg0: nat, arg1: nat, methods: set<Auth>, cmd: Command, atyp: AddressType,
    userlen: nat, passlen: nat, dport: nat)

  datatype Context = Context(s: Scalars, username: seq<Byte>, password: seq<Byte>, daddr: seq<Byte>)

  // Counters stay within the buffers.
  ghost predicate Bounded(s: Scalars) {
    && s.arg0 < FIELD && s.arg1 < FIELD - 1 && s.userlen < FIELD - 1 && s.passlen < FIELD - 1
    && (s.state.Methods? || s.state.ReqDaddr? ==> s.arg0 <= s.arg1)
    && (s.state.PwUsername? ==> s.arg0 <= s.userlen)
    && (s.state.PwPassword? ==> s.arg0 <= s.passlen)
    && (s.state.ReqAtypHost? ==> s.arg0 == 0)
    && (s.state.ReqDport1? ==> s.dport % 256 == 0)
  }

  ghost predicate Valid(x: Context) {
    Bounded(x.s) && |x.username| == |x.password| == |x.daddr| == FIELD
  }

  function Known(c: Byte): set<Auth> {
    if c == 0 then {AuthNone} else if c == 1 then {AuthGssapi} else if c == 2 then {AuthPasswd} else {}
  }

  // A byte of a counted field at arg0, and the terminator once there are n.
  function Filled(buffer: seq<Byte>, arg0: nat, n: nat, c: Byte): (r: seq<Byte>)
    requires arg0 <= n < |buffer|
    ensures |r| == |buffer|
  {
    var b := if arg0 < n then buffer[arg0 := c] else buffer;
    if arg0 + 1 >= n then b[n := 0] else b
  }

  // A port in network byte order.
  function PortOf(hi: int, lo: int): nat
    requires 0 <= hi && 0 <= lo
  {
    256 * hi + lo
  }

  lemma {:induction false} PortIs(hi: Byte, lo: Byte)
    ensures PortOf(hi, lo) / 256 == hi && PortOf(hi, lo) % 256 == lo
  {}

  // What one byte does.
  function Step(x: Context, c: Byte): (r: (Context, Event))
    requires Valid(x)
    ensures Valid(r.0)
  {
    var s := x.s;
    match s.state
    case Version => if c != 5 then (x, BadVersion) else (x.(s := s.(state := NMethods)), Ok)
    case NMethods => (x.(s := s.(arg0 := 0, arg1 := c, state := Methods)), Ok)
    case Methods =>
      var s' := if s.arg0 < s.arg1 then s.(methods := s.methods + Known(c), arg0 := s.arg0 + 1) else s;
      (x.(s := s'), if s'.arg0 == s'.arg1 then AuthSelect else Ok)
    case PwVersion => if c != 1 then (x, BadVersion) else (x.(s := s.(state := PwUserLen)), Ok)
    case PwUserLen => (x.(s := s.(arg0 := 0, userlen := c, state := PwUsername)), Ok)
    case PwUsername =>
      var s' := if s.arg0 < s.userlen then s.(arg0 := s.arg0 + 1) else s;
      (x.(s := if s'.arg0 == s.userlen then s'.(state := PwPassLen) else s',
          username := Filled(x.username, s.arg0, s.userlen, c)), Ok)
    case PwPassLen => (x.(s := s.(arg0 := 0, passlen := c, state := PwPassword)), Ok)
    case PwPassword =>
      var s' := if s.arg0 < s.passlen then s.(arg0 := s.arg0 + 1) else s;
      (x.(s := if s'.arg0 == s.passlen then s'.(state := ReqVersion) else s',
          password := Filled(x.password, s.arg0, s.passlen, c)), if s'.arg0 == s.passlen then AuthVerify else Ok)
    case ReqVersion => if c != 5 then (x, BadVersion) else (x.(s := s.(state := ReqCmd)), Ok)
    case ReqCmd =>
      if c == 1 then (x.(s := s.(cmd := TcpConnect, state := ReqReserved)), Ok)
      else if c == 3 then (x.(s := s.(cmd := UdpAssoc, state := ReqReserved)), Ok)
      else (x, BadCmd)
    case ReqReserved => (x.(s := s.(state := ReqAtyp)), Ok)
    case ReqAtyp =>
      if c == 1 then (x.(s := s.(arg0 := 0, state := ReqDaddr, atyp := Ipv4, arg1 := 4)), Ok)
      else if c == 3 then (x.(s := s.(arg0 := 0, state := ReqAtypHost, atyp := Host, arg1 := 0)), Ok)
      else if c == 4 then (x.(s := s.(arg0 := 0, state := ReqDaddr, atyp := Ipv6, arg1 := 16)), Ok)
      else (x.(s := s.(arg0 := 0)), BadAtyp)
    case ReqAtypHost => (x.(s := s.(arg1 := c, state := ReqDaddr)), Ok)
    case ReqDaddr =>
      var s' := if s.arg0 < s.arg1 then s.(arg0 := s.arg0 + 1) else s;
      (x.(s := if s'.arg0 == s.arg1 then s'.(state := ReqDport0) else s',
          daddr := Filled(x.daddr, s.arg0, s.arg1, c)), Ok)
    case ReqDport0 => (x.(s := s.(dport := PortOf(c, 0), state := ReqDport1)), Ok)
    case ReqDport1 => (x.(s := s.(dport := s.dport + c, state := Dead)), ExecCmd)
    case Dead => (x, Ok)
  }

  datatype Outcome = Outcome(x: Context, event: Event, used: nat)

  // What s5_parse makes of a buffer.
  function Parsed(x: Context, data: seq<Byte>): (r: Outcome)
    requires Valid(x)
    ensures Valid(r.x) && r.used <= |data| && (r.event == Ok ==> r.used == |data|)
    decreases |data|
  {
    if data == [] then Outcome(x, Ok, 0) else
      var (y, e) := Step(x, data[0]);
      if e != Ok then Outcome(y, e, 1) else
        var r := Parsed(y, data[1..]);
        r.(used := r.used + 1)
  }

  // Cutting the input in two makes no difference.
  lemma {:induction false} Chunked(x: Context, a: seq<Byte>, b: seq<Byte>)
    requires Valid(x)
    ensures var r := Parsed(x, a);
      Parsed(x, a + b) ==
      if r.event != Ok then r else
        var q := Parsed(r.x, b);
        q.(used := |a| + q.used)
    decreases |a|
  {
    if a == [] {
      assert a + b == b;
    } else {
      assert (a + b)[0] == a[0] && (a + b)[1..] == a[1..] + b;
      hide Step, Valid;
      if Step(x, a[0]).1 == Ok {
        Chunked(Step(x, a[0]).0, a[1..], b);
      }
    }
  }

  function Joined(chunks: seq<seq<Byte>>): seq<Byte> {
    if chunks == [] then [] else chunks[0] + Joined(chunks[1..])
  }

  // A client that reads on while s5_parse wants more data; `used` counts bytes over all chunks.
  function Fed(x: Context, chunks: seq<seq<Byte>>): Outcome
    requires Valid(x)
    decreases |chunks|
  {
    if chunks == [] then Outcome(x, Ok, 0) else
      var r := Parsed(x, chunks[0]);
      if r.event != Ok then r else
        var q := Fed(r.x, chunks[1..]);
        q.(used := r.used + q.used)
  }

  lemma {:induction false} AnyChunking(x: Context, chunks: seq<seq<Byte>>)
    requires Valid(x)
    ensures Fed(x, chunks) == Parsed(x, Joined(chunks))
    decreases |chunks|
  {
    if chunks != [] {
      hide Parsed, Valid;
      Chunked(x, chunks[0], Joined(chunks[1..]));
      var r := Parsed(x, chunks[0]);
      if r.event == Ok {
        AnyChunking(r.x, chunks[1..]);
      }
    } else {
      assert Joined(chunks) == [];
    }
  }

  // A counted field takes a byte even when its count is zero.
  function Length(n: int): (r: nat)
    requires n >= 0
    ensures r > 0 && (r == n <==> n > 0)
  {
    if n > 0 then n else 1
  }

  // What a buffer holds once its field is complete.
  function Written(buffer: seq<Byte>, at: nat, text: seq<Byte>): (r: seq<Byte>)
    requires at + |text| < |buffer|
    ensures |r| == |buffer|
  {
    buffer[..at] + text + [0] + buffer[at + |text| + 1..]
  }

  // The first n bytes, or none when n is zero.
  lemma {:induction false} WrittenStep(buffer: seq<Byte>, at: nat, n: nat, data: seq<Byte>)
    requires at <= n < |buffer| && |data| >= Length(n - at)
    ensures n <= at + 1 ==> Filled(buffer, at, n, data[0]) == Written(buffer, at, data[..n - at])
    ensures n > at + 1 ==>
      Written(Filled(buffer, at, n, data[0]), at + 1, data[1..][..n - at - 1]) == Written(buffer, at, data[..n - at])
  {}

  function Skip(r: Outcome, n: nat): Outcome {
    r.(used := r.used + n)
  }

  // A byte that only moves the parser on.
  lemma {:induction false} Onward(x: Context, data: seq<Byte>, y: Context)
    requires Valid(x) && 0 < |data| && Step(x, data[0]) == (y, Ok)
    ensures Valid(y) && Parsed(x, data) == Skip(Parsed(y, data[1..]), 1)
  {}

  lemma {:induction false} Resumed(x: Context, y: Context, z: Context, data: seq<Byte>, k: nat)
    requires Valid(x) && Valid(y) && Valid(z) && 1 < k <= |data|
    requires Parsed(x, data) == Skip(Parsed(y, data[1..]), 1)
    requires Parsed(y, data[1..]) == Skip(Parsed(z, data[1..][k - 1..]), k - 1)
    ensures Parsed(x, data) == Skip(Parsed(z, data[k..]), k)
  {
    assert data[1..][k - 1..] == data[k..];
    hide Parsed;
  }

  // The context once the field's last bytes, `text`, have come.
  function UsernameDone(x: Context, text: seq<Byte>): Context
    requires Valid(x) && x.s.state == PwUsername && x.s.arg0 + |text| == x.s.userlen
  {
    x.(s := x.s.(arg0 := x.s.userlen, state := PwPassLen), username := Written(x.username, x.s.arg0, text))
  }

  lemma {:induction false} UsernameByte(x: Context, c: Byte)
    requires Valid(x) && x.s.state == PwUsername
    ensures var n, at := x.s.userlen, x.s.arg0;
      Step(x, c) == if n <= at + 1
      then (x.(s := x.s.(arg0 := n, state := PwPassLen), username := Filled(x.username, at, n, c)), Ok)
      else (x.(s := x.s.(arg0 := at + 1), username := Filled(x.username, at, n, c)), Ok)
  {}

  lemma {:induction false} UsernameStep(x: Context, data: seq<Byte>, at: nat, n: nat)
    requires Valid(x) && x.s.state == PwUsername && x.s.arg0 == at && x.s.userlen == n && |data| >= Length(n - at)
    ensures var y := Step(x, data[0]).0;
      && Valid(UsernameDone(x, data[..n - at]))
      && if n <= at + 1 then y == UsernameDone(x, data[..n - at])
      else (
        && y.s.state == PwUsername && y.s.arg0 == at + 1 && y.s.userlen == n
        && UsernameDone(x, data[..n - at]) == UsernameDone(y, data[1..][..n - at - 1]))
  {
    UsernameByte(x, data[0]);
    WrittenStep(x.username, at, n, data);
    hide Step, Filled, Written;
  }

  lemma {:induction false} Username(x: Context, data: seq<Byte>, at: nat, n: nat)
    requires Valid(x) && x.s.state == PwUsername && x.s.arg0 == at && x.s.userlen == n
    ensures var k := Length(n - at);
      if |data| < k then Parsed(x, data).event == Ok
      else Parsed(x, data) == Skip(Parsed(UsernameDone(x, data[..n - at]), data[k..]), k)
    decreases |data|
  {
    var k := Length(n - at);
    if data != [] {
      var y := Step(x, data[0]).0;
      UsernameByte(x, data[0]);
      hide *;
      Onward(x, data, y);
      if |data| >= k {
        UsernameStep(x, data, at, n);
      }
      if k > 1 {
        Username(y, data[1..], at + 1, n);
        if |data| >= k {
          Resumed(x, y, UsernameDone(x, data[..n - at]), data, k);
        }
      }
    }
  }

  // The context once the field's last bytes, `text`, have come.
  function PasswordDone(x: Context, text: seq<Byte>): Context
    requires Valid(x) && x.s.state == PwPassword && x.s.arg0 + |text| == x.s.passlen
  {
    x.(s := x.s.(arg0 := x.s.passlen, state := ReqVersion), password := Written(x.password, x.s.arg0, text))
  }

  lemma {:induction false} PasswordByte(x: Context, c: Byte)
    requires Valid(x) && x.s.state == PwPassword
    ensures var n, at := x.s.passlen, x.s.arg0;
      Step(x, c) == if n <= at + 1
      then (x.(s := x.s.(arg0 := n, state := ReqVersion), password := Filled(x.password, at, n, c)), AuthVerify)
      else (x.(s := x.s.(arg0 := at + 1), password := Filled(x.password, at, n, c)), Ok)
  {}

  lemma {:induction false} PasswordStep(x: Context, data: seq<Byte>, at: nat, n: nat)
    requires Valid(x) && x.s.state == PwPassword && x.s.arg0 == at && x.s.passlen == n && |data| >= Length(n - at)
    ensures var y := Step(x, data[0]).0;
      && Valid(PasswordDone(x, data[..n - at]))
      && if n <= at + 1 then y == PasswordDone(x, data[..n - at])
      else (
        && y.s.state == PwPassword && y.s.arg0 == at + 1 && y.s.passlen == n
        && PasswordDone(x, data[..n - at]) == PasswordDone(y, data[1..][..n - at - 1]))
  {
    PasswordByte(x, data[0]);
    WrittenStep(x.password, at, n, data);
    hide Step, Filled, Written;
  }

  lemma {:induction false} Password(x: Context, data: seq<Byte>, at: nat, n: nat)
    requires Valid(x) && x.s.state == PwPassword && x.s.arg0 == at && x.s.passlen == n
    ensures var k := Length(n - at);
      if |data| < k then Parsed(x, data).event == Ok
      else Parsed(x, data) == Outcome(PasswordDone(x, data[..n - at]), AuthVerify, k)
    decreases |data|
  {
    var k := Length(n - at);
    if data != [] {
      var y := Step(x, data[0]).0;
      PasswordByte(x, data[0]);
      assert k == 1 ==> Parsed(x, data) == Outcome(y, AuthVerify, 1);
      hide *;
      if |data| >= k {
        PasswordStep(x, data, at, n);
      }
      if k > 1 {
        Onward(x, data, y);
        Password(y, data[1..], at + 1, n);
      }
    }
  }

  // The context once the field's last bytes, `text`, have come.
  function AddressDone(x: Context, text: seq<Byte>): Context
    requires Valid(x) && x.s.state == ReqDaddr && x.s.arg0 + |text| == x.s.arg1
  {
    x.(s := x.s.(arg0 := x.s.arg1, state := ReqDport0), daddr := Written(x.daddr, x.s.arg0, text))
  }

  lemma {:induction false} AddressByte(x: Context, c: Byte)
    requires Valid(x) && x.s.state == ReqDaddr
    ensures var n, at := x.s.arg1, x.s.arg0;
      Step(x, c) == if n <= at + 1
      then (x.(s := x.s.(arg0 := n, state := ReqDport0), daddr := Filled(x.daddr, at, n, c)), Ok)
      else (x.(s := x.s.(arg0 := at + 1), daddr := Filled(x.daddr, at, n, c)), Ok)
  {}

  lemma {:induction false} AddressStep(x: Context, data: seq<Byte>, at: nat, n: nat)
    requires Valid(x) && x.s.state == ReqDaddr && x.s.arg0 == at && x.s.arg1 == n && |data| >= Length(n - at)
    ensures var y := Step(x, data[0]).0;
      && Valid(AddressDone(x, data[..n - at]))
      && if n <= at + 1 then y == AddressDone(x, data[..n - at])
      else (
        && y.s.state == ReqDaddr && y.s.arg0 == at + 1 && y.s.arg1 == n
        && AddressDone(x, data[..n - at]) == AddressDone(y, data[1..][..n - at - 1]))
  {
    AddressByte(x, data[0]);
    WrittenStep(x.daddr, at, n, data);
    hide Step, Filled, Written;
  }

  lemma {:induction false} Address(x: Context, data: seq<Byte>, at: nat, n: nat)
    requires Valid(x) && x.s.state == ReqDaddr && x.s.arg0 == at && x.s.arg1 == n
    ensures var k := Length(n - at);
      if |data| < k then Parsed(x, data).event == Ok
      else Parsed(x, data) == Skip(Parsed(AddressDone(x, data[..n - at]), data[k..]), k)
    decreases |data|
  {
    var k := Length(n - at);
    if data != [] {
      var y := Step(x, data[0]).0;
      AddressByte(x, data[0]);
      hide *;
      Onward(x, data, y);
      if |data| >= k {
        AddressStep(x, data, at, n);
      }
      if k > 1 {
        Address(y, data[1..], at + 1, n);
        if |data| >= k {
          Resumed(x, y, AddressDone(x, data[..n - at]), data, k);
        }
      }
    }
  }

  // The methods a list of bytes offers.
  function Offered(list: seq<Byte>): set<Auth> {
    if list == [] then {} else Known(list[0]) + Offered(list[1..])
  }

  lemma {:induction false} OfferedIs(list: seq<Byte>)
    ensures AuthNone in Offered(list) <==> 0 in list
    ensures AuthGssapi in Offered(list) <==> 1 in list
    ensures AuthPasswd in Offered(list) <==> 2 in list
  {
    if list != [] {
      OfferedIs(list[1..]);
    }
  }

  lemma {:induction false} MethodList(x: Context, data: seq<Byte>)
    requires Valid(x) && x.s.state == Methods
    ensures var n, k := x.s.arg1, Length(x.s.arg1 - x.s.arg0);
      if |data| < k then Parsed(x, data).event == Ok
      else
        var y := x.(s := x.s.(arg0 := n, methods := x.s.methods + Offered(data[..n - x.s.arg0])));
        Parsed(x, data) == Outcome(y, AuthSelect, k)
    decreases |data|
  {
    var n, at := x.s.arg1, x.s.arg0;
    var k := Length(n - at);
    if data != [] {
      var y := Step(x, data[0]).0;
      var s' := if at < n then x.s.(methods := x.s.methods + Known(data[0]), arg0 := at + 1) else x.s;
      assert y == x.(s := s') && Step(x, data[0]).1 == if k == 1 then AuthSelect else Ok;
      assert k == 1 ==> Parsed(x, data) == Outcome(y, AuthSelect, 1);
      if |data| >= k && at < n {
        var list := data[..n - at];
        assert list[0] == data[0] && list[1..] == data[1..][..n - at - 1];
        assert Offered(list) == Known(data[0]) + Offered(list[1..]);
        assert n - at == 1 ==> Offered(list[1..]) == {};
      }
      hide Step, Parsed, Offered, Known;
      if k > 1 {
        Onward(x, data, y);
        MethodList(y, data[1..]);
        assert |data| >= k ==>
          x.s.methods + Known(data[0]) + Offered(data[1..][..n - at - 1]) == x.s.methods + Offered(data[..n - at]);
      }
    }
  }

  // Method selection, for every input: the message ends with the last method offered, but a
  // list of none takes a byte more.
  lemma {:induction false} Greeting(x: Context, data: seq<Byte>)
    requires Valid(x) && x.s.state == Version
    ensures var r := Parsed(x, data);
      if |data| > 0 && data[0] != 5 then r == Outcome(x, BadVersion, 1)
      else if |data| < 2 || |data| < 2 + Length(data[1]) then r.event == Ok
      else var n := data[1];
        r == Outcome(x.(s := x.s.(state := Methods, arg0 := n, arg1 := n,
                                  methods := x.s.methods + Offered(data[2..2 + n]))),
                     AuthSelect, 2 + Length(n))
  {
    if |data| > 0 && data[0] == 5 {
      var x1 := x.(s := x.s.(state := NMethods));
      Onward(x, data, x1);
      if |data| > 1 {
        var x2 := x1.(s := x1.s.(arg0 := 0, arg1 := data[1], state := Methods));
        Onward(x1, data[1..], x2);
        assert data[1..][1..] == data[2..];
        assert |data| >= 2 + Length(data[1]) ==> data[2..][..data[1]] == data[2..2 + data[1]];
        hide Step, Parsed, Offered;
        MethodList(x2, data[2..]);
      }
    }
  }

  // Name and password, for every input.
  lemma {:induction false} Login(x: Context, data: seq<Byte>)
    requires Valid(x) && x.s.state == PwVersion
    ensures var r := Parsed(x, data);
      if |data| > 0 && data[0] != 1 then r == Outcome(x, BadVersion, 1)
      else if |data| < 2 || |data| < 3 + Length(data[1]) then r.event == Ok
      else
        var u, at := data[1], 3 + Length(data[1]);
        var p := data[at - 1];
        if |data| < at + Length(p) then r.event == Ok
        else
          r == Outcome(x.(s := x.s.(state := ReqVersion, arg0 := p, userlen := u, passlen := p),
                          username := Written(x.username, 0, data[2..2 + u]),
                          password := Written(x.password, 0, data[at..at + p])), AuthVerify, at + Length(p))
  {
    if |data| > 0 && data[0] == 1 {
      var x1 := x.(s := x.s.(state := PwUserLen));
      Onward(x, data, x1);
      if |data| > 1 {
        var x2 := x1.(s := x1.s.(arg0 := 0, userlen := data[1], state := PwUsername));
        Onward(x1, data[1..], x2);
        assert data[1..][1..] == data[2..];
        hide *;
        LoginName(x2, data, data[1]);
      }
    }
  }

  lemma {:induction false} LoginName(x: Context, data: seq<Byte>, u: Byte)
    requires Valid(x) && x.s.state == PwUsername && |data| >= 2 && x.s.arg0 == 0 && x.s.userlen == u
    ensures var r, at := Parsed(x, data[2..]), 3 + Length(u);
      if |data| < at then r.event == Ok
      else var p := data[at - 1];
        if |data| < at + Length(p) then r.event == Ok
        else
          r == Outcome(x.(s := x.s.(state := ReqVersion, arg0 := p, passlen := p),
                          username := Written(x.username, 0, data[2..2 + u]),
                          password := Written(x.password, 0, data[at..at + p])), AuthVerify, at - 2 + Length(p))
  {
    hide Step, Parsed, Written;
    Username(x, data[2..], 0, u);
    if |data| >= 2 + Length(u) {
      assert data[2..][..u] == data[2..2 + u] && data[2..][Length(u)..] == data[2 + Length(u)..];
      var y := x.(s := x.s.(arg0 := u, state := PwPassLen), username := Written(x.username, 0, data[2..2 + u]));
      LoginRest(y, data, 2 + Length(u));
    }
  }

  lemma {:induction false} LoginRest(x: Context, data: seq<Byte>, at: nat)
    requires Valid(x) && x.s.state == PwPassLen && at <= |data|
    ensures var r := Parsed(x, data[at..]);
      if |data| < at + 1 || |data| < at + 1 + Length(data[at]) then r.event == Ok
      else var p := data[at];
        r == Outcome(x.(s := x.s.(state := ReqVersion, arg0 := p, passlen := p),
                        password := Written(x.password, 0, data[at + 1..at + 1 + p])), AuthVerify, 1 + Length(p))
  {
    if at < |data| {
      var p := data[at];
      var y := x.(s := x.s.(arg0 := 0, passlen := p, state := PwPassword));
      Onward(x, data[at..], y);
      assert data[at..][1..] == data[at + 1..];
      assert |data| >= at + 1 + p ==> data[at + 1..][..p] == data[at + 1..at + 1 + p];
      hide Step, Parsed, Written;
      Password(y, data[at + 1..], 0, p);
    }
  }

  // The address and port of a request, from position `at` on.
  lemma {:induction false} Target(x: Context, data: seq<Byte>, at: nat)
    requires Valid(x) && x.s.state == ReqDaddr && x.s.arg0 == 0 && at <= |data|
    ensures var r, n, k := Parsed(x, data[at..]), x.s.arg1, Length(x.s.arg1);
      if |data| < at + k + 2 then r.event == Ok
      else
        r == Outcome(x.(s := x.s.(state := Dead, arg0 := n, dport := PortOf(data[at + k], data[at + k + 1])),
                        daddr := Written(x.daddr, 0, data[at..at + n])), ExecCmd, k + 2)
  {
    hide Step, Parsed, Written;
    var n, k := x.s.arg1, Length(x.s.arg1);
    Address(x, data[at..], 0, n);
    if |data| >= at + k {
      assert data[at..][..n] == data[at..at + n] && data[at..][k..] == data[at + k..];
      var y := x.(s := x.s.(arg0 := n, state := ReqDport0), daddr := Written(x.daddr, 0, data[at..at + n]));
      Port(y, data, at + k);
    }
  }

  lemma {:induction false} Port(x: Context, data: seq<Byte>, at: nat)
    requires Valid(x) && x.s.state == ReqDport0 && at <= |data|
    ensures var r := Parsed(x, data[at..]);
      if |data| < at + 2 then r.event == Ok
      else r == Outcome(x.(s := x.s.(state := Dead, dport := PortOf(data[at], data[at + 1]))), ExecCmd, 2)
  {
    if at < |data| {
      var y := x.(s := x.s.(dport := PortOf(data[at], 0), state := ReqDport1));
      Onward(x, data[at..], y);
      assert data[at..][1..] == data[at + 1..];
    }
  }

  function CommandOf(c: Byte): Command {
    if c == 1 then TcpConnect else UdpAssoc
  }

  function AddressTypeOf(c: Byte): AddressType {
    if c == 1 then Ipv4 else if c == 3 then Host else Ipv6
  }

  // A request, for every input.
  lemma {:induction false} Request(x: Context, data: seq<Byte>)
    requires Valid(x) && x.s.state == ReqVersion
    ensures var r := Parsed(x, data);
      if |data| > 0 && data[0] != 5 then r == Outcome(x, BadVersion, 1)
      else if |data| > 1 && data[1] != 1 && data[1] != 3 then r == Outcome(x.(s := x.s.(state := ReqCmd)), BadCmd, 2)
      else if |data| > 3 && data[3] != 1 && data[3] != 3 && data[3] != 4 then
        r == Outcome(x.(s := x.s.(state := ReqAtyp, cmd := CommandOf(data[1]), arg0 := 0)), BadAtyp, 4)
      else if |data| < 5 then r.event == Ok
      else
        var n := if data[3] == 1 then 4 else if data[3] == 4 then 16 else data[4];
        var at := if data[3] == 3 then 5 else 4;
        var k := Length(n);
        if |data| < at + k + 2 then r.event == Ok
        else
          r == Outcome(x.(s := x.s.(state := Dead, cmd := CommandOf(data[1]), atyp := AddressTypeOf(data[3]),
                                    arg0 := n, arg1 := n, dport := PortOf(data[at + k], data[at + k + 1])),
                          daddr := Written(x.daddr, 0, data[at..at + n])), ExecCmd, at + k + 2)
  {
    if |data| > 1 && data[0] == 5 {
      Onward(x, data, x.(s := x.s.(state := ReqCmd)));
      if |data| > 2 && (data[1] == 1 || data[1] == 3) {
        assert data[1..][1..] == data[2..] && data[2..][1..] == data[3..];
        var y := x.(s := x.s.(state := ReqReserved, cmd := CommandOf(data[1])));
        Onward(x.(s := x.s.(state := ReqCmd)), data[1..], y);
        Onward(y, data[2..], y.(s := y.s.(state := ReqAtyp)));
        hide Step, Parsed, Written;
        Addressed(y.(s := y.s.(state := ReqAtyp)), data);
      }
    }
  }

  lemma {:induction false} Addressed(x: Context, data: seq<Byte>)
    requires Valid(x) && x.s.state == ReqAtyp && |data| >= 3
    ensures var r := Parsed(x, data[3..]);
      if |data| > 3 && data[3] != 1 && data[3] != 3 && data[3] != 4 then
        r == Outcome(x.(s := x.s.(arg0 := 0)), BadAtyp, 1)
      else if |data| < 5 then r.event == Ok
      else
        var n := if data[3] == 1 then 4 else if data[3] == 4 then 16 else data[4];
        var at := if data[3] == 3 then 5 else 4;
        var k := Length(n);
        if |data| < at + k + 2 then r.event == Ok
        else
          r == Outcome(x.(s := x.s.(state := Dead, atyp := AddressTypeOf(data[3]),
                                    arg0 := n, arg1 := n, dport := PortOf(data[at + k], data[at + k + 1])),
                          daddr := Written(x.daddr, 0, data[at..at + n])), ExecCmd, at + k - 1)
  {
    if |data| > 3 {
      var y := Step(x, data[3]).0;
      assert data[3..][1..] == data[4..];
      if data[3] == 3 {
        Onward(x, data[3..], y);
        if |data| > 4 {
          var z := y.(s := y.s.(state := ReqDaddr, arg1 := data[4]));
          Onward(y, data[4..], z);
          assert data[4..][1..] == data[5..];
          hide Step, Parsed, Written;
          Target(z, data, 5);
        }
      } else if data[3] == 1 || data[3] == 4 {
        Onward(x, data[3..], y);
        assert y == x.(s := x.s.(state := ReqDaddr, arg0 := 0, atyp := AddressTypeOf(data[3]),
                                 arg1 := if data[3] == 1 then 4 else 16));
        hide Step, Parsed, Written;
        Target(y, data, 4);
      }
    }
  }

  function Hello(list: seq<Byte>): seq<Byte>
    requires |list| < 256
  {
    [5, |list|] + list
  }

  function Credentials(user: seq<Byte>, password: seq<Byte>): seq<Byte>
    requires |user| < 256 && |password| < 256
  {
    [1, |user|] + user + [|password|] + password
  }

  // Whatever follows, a greeting is read to its last byte and no further, just when its list is
  // not empty.
  lemma {:induction false} HelloRead(x: Context, list: seq<Byte>, rest: seq<Byte>)
    requires Valid(x) && x.s.state == Version && |list| < 256
    ensures var r := Parsed(x, Hello(list) + rest);
      && (r.event == AuthSelect && r.used == |Hello(list)| <==> list != [])
      && (list != [] ==> r.x.s.methods == x.s.methods + Offered(list))
  {
    var data := Hello(list) + rest;
    Greeting(x, data);
    assert data[2..2 + |list|] == list;
    hide Parsed, Offered, Step;
  }

  // Whatever follows, a login is read to its last byte, with the lengths sent, just when neither
  // field is empty; then both fields come back as they were sent, each with its terminator.
  lemma {:induction false} CredentialsRead(x: Context, user: seq<Byte>, password: seq<Byte>, rest: seq<Byte>)
    requires Valid(x) && x.s.state == PwVersion && |user| < 256 && |password| < 256
    ensures var r := Parsed(x, Credentials(user, password) + rest);
      var read := r.event == AuthVerify && r.used == |Credentials(user, password)|;
      && (read && r.x.s.userlen == |user| && r.x.s.passlen == |password| <==> user != [] && password != [])
      && (user != [] && password != [] ==>
            && r.x.s.state == ReqVersion && r.x.daddr == x.daddr
            && r.x.username[..|user|] == user && r.x.username[|user|] == 0
            && r.x.password[..|password|] == password && r.x.password[|password|] == 0)
  {
    var data := Credentials(user, password) + rest;
    var at := 3 + |user|;
    assert data[2..2 + |user|] == user && data[at - 1] == |password| && data[at..at + |password|] == password;
    Login(x, data);
    hide Parsed, Step;
  }

  datatype Destination = ToIpv4(octets: seq<Byte>) | ToHost(name: seq<Byte>) | ToIpv6(octets: seq<Byte>)

  // A destination a request can carry, a host name of no bytes included.
  predicate Encodable(d: Destination) {
    match d
    case ToIpv4(o) => |o| == 4
    case ToHost(name) => |name| < 256
    case ToIpv6(o) => |o| == 16
  }

  function Octets(d: Destination): seq<Byte> {
    if d.ToHost? then d.name else d.octets
  }

  function CommandCode(cmd: Command): Byte {
    match cmd
    case TcpConnect => 1
    case TcpBind => 2
    case UdpAssoc => 3
  }

  // What comes before the address.
  function Head(cmd: Command, reserved: Byte, d: Destination): seq<Byte>
    requires Encodable(d)
  {
    match d
    case ToIpv4(_) => [5, CommandCode(cmd), reserved, 1]
    case ToHost(name) => [5, CommandCode(cmd), reserved, 3, |name|]
    case ToIpv6(_) => [5, CommandCode(cmd), reserved, 4]
  }

  function EncodedRequest(cmd: Command, reserved: Byte, d: Destination, hi: Byte, lo: Byte): seq<Byte>
    requires Encodable(d)
  {
    Head(cmd, reserved, d) + Octets(d) + [hi, lo]
  }

  function TypeOf(d: Destination): AddressType {
    match d
    case ToIpv4(_) => Ipv4
    case ToHost(_) => Host
    case ToIpv6(_) => Ipv6
  }

  // Where the parts of a request are.
  lemma {:induction false} Layout(cmd: Command, reserved: Byte, d: Destination, hi: Byte, lo: Byte, rest: seq<Byte>)
    requires Encodable(d)
    ensures var data := EncodedRequest(cmd, reserved, d, hi, lo) + rest;
      var n, at := |Octets(d)|, if d.ToHost? then 5 else 4;
      && |EncodedRequest(cmd, reserved, d, hi, lo)| == at + n + 2 && data[0] == 5 && data[1] == CommandCode(cmd)
      && data[3] == (if d.ToIpv4? then 1 else if d.ToHost? then 3 else 4) && (d.ToHost? ==> data[4] == n)
      && data[at..at + n] == Octets(d) && data[at + n] == hi && data[at + n + 1] == lo
  {
    Inside(Head(cmd, reserved, d), Octets(d), hi, lo, rest);
  }

  lemma {:induction false} Inside(head: seq<Byte>, text: seq<Byte>, hi: Byte, lo: Byte, rest: seq<Byte>)
    ensures var data := head + text + [hi, lo] + rest;
      && (forall i :: 0 <= i < |head| ==> data[i] == head[i])
      && data[|head|..|head| + |text|] == text && data[|head| + |text|] == hi && data[|head| + |text| + 1] == lo
  {}

  // Whatever follows, a request is carried out and read to its last byte just when it does not
  // ask to bind, which this parser refuses, and its host name is not empty; then it comes back as
  // it was sent.
  lemma {:induction false} RequestRead(x: Context, cmd: Command, reserved: Byte, d: Destination, hi: Byte, lo: Byte,
                                       rest: seq<Byte>)
    requires Valid(x) && x.s.state == ReqVersion && Encodable(d)
    ensures var r := Parsed(x, EncodedRequest(cmd, reserved, d, hi, lo) + rest);
      var read := r.event == ExecCmd && r.used == |EncodedRequest(cmd, reserved, d, hi, lo)|;
      && (read <==> cmd != TcpBind && Octets(d) != [])
      && (cmd == TcpBind ==> r.event == BadCmd)
      && (cmd != TcpBind && Octets(d) != [] ==>
            && r.x.s.cmd == cmd && r.x.s.atyp == TypeOf(d) && r.x.s.dport / 256 == hi && r.x.s.dport % 256 == lo
            && r.x.daddr[..|Octets(d)|] == Octets(d) && r.x.daddr[|Octets(d)|] == 0)
  {
    Layout(cmd, reserved, d, hi, lo, rest);
    PortIs(hi, lo);
    Request(x, EncodedRequest(cmd, reserved, d, hi, lo) + rest);
    hide Parsed, Step, EncodedRequest, Head;
  }

  class Parser {
    var s: Scalars
    const username: array<Byte>
    const password: array<Byte>
    const daddr: array<Byte>

    ghost predicate Sound()
      reads this, username, password, daddr
    {
      username != password && username != daddr && password != daddr && Valid(Abs())
    }

    ghost function Abs(): Context
      reads this, username, password, daddr
    {
      Context(s, username[..], password[..], daddr[..])
    }

    // s5_init
    constructor ()
      ensures Sound() && fresh(username) && fresh(password) && fresh(daddr) && s.state == Version && s.methods == {}
    {
      s := Scalars(Version, 0, 0, {}, TcpConnect, Ipv4, 0, 0, 0);
      username := new Byte[FIELD](_ => 0);
      password := new Byte[FIELD](_ => 0);
      daddr := new Byte[FIELD](_ => 0);
    }

    // A byte of a field that ends after n bytes; `i` counts them.
    static method Fill(buffer: array<Byte>, i: nat, n: nat, c: Byte) returns (i': nat)
      requires i <= n < buffer.Length
      modifies buffer
      ensures buffer[..] == Filled(old(buffer[..]), i, n, c) && i' == if i < n then i + 1 else i
    {
      i' := i;
      if i' < n {
        buffer[i'] := c;
        i' := i' + 1;
      }
      if i' == n {
        buffer[n] := 0;
      }
    }

    // The bytes of a field that only set scalars.
    method Scalar(c: Byte) returns (e: Event)
      requires Sound() && !s.state.PwUsername? && !s.state.PwPassword? && !s.state.ReqDaddr?
      modifies this
      ensures Sound() && (Abs(), e) == Step(old(Abs()), c)
    {
      e := Ok;
      match s.state {
        case Version =>
          if c != 5 {
            return BadVersion;
          }
          s := s.(state := NMethods);
        case NMethods => s := s.(arg0 := 0, arg1 := c, state := Methods);
        case Methods =>
          if s.arg0 < s.arg1 {
            s := s.(methods := s.methods + Known(c), arg0 := s.arg0 + 1);
          }
          if s.arg0 == s.arg1 {
            return AuthSelect;
          }
        case PwVersion =>
          if c != 1 {
            return BadVersion;
          }
          s := s.(state := PwUserLen);
        case PwUserLen => s := s.(arg0 := 0, userlen := c, state := PwUsername);
        case PwPassLen => s := s.(arg0 := 0, passlen := c, state := PwPassword);
        case ReqVersion =>
          if c != 5 {
            return BadVersion;
          }
          s := s.(state := ReqCmd);
        case ReqCmd =>
          if c == 1 {
            s := s.(cmd := TcpConnect);
          } else if c == 3 {
            s := s.(cmd := UdpAssoc);
          } else {
            return BadCmd;
          }
          s := s.(state := ReqReserved);
        case ReqReserved => s := s.(state := ReqAtyp);
        case ReqAtyp =>
          s := s.(arg0 := 0);
          if c == 1 {
            s := s.(state := ReqDaddr, atyp := Ipv4, arg1 := 4);
          } else if c == 3 {
            s := s.(state := ReqAtypHost, atyp := Host, arg1 := 0);
          } else if c == 4 {
            s := s.(state := ReqDaddr, atyp := Ipv6, arg1 := 16);
          } else {
            return BadAtyp;
          }
        case ReqAtypHost => s := s.(arg1 := c, state := ReqDaddr);
        case ReqDport0 => s := s.(dport := PortOf(c, 0), state := ReqDport1);
        case ReqDport1 =>
          s := s.(dport := s.dport + c, state := Dead);
          return ExecCmd;
        case Dead =>
      }
    }

    // One byte: the body of the loop.
    method Accept(c: Byte) returns (e: Event)
      requires Sound()
      modifies this, username, password, daddr
      ensures Sound() && (Abs(), e) == Step(old(Abs()), c)
    {
      var i;
      if s.state == PwUsername {
        i := Fill(username, s.arg0, s.userlen, c);
        s := s.(arg0 := i);
        if i == s.userlen {
          s := s.(state := PwPassLen);
        }
        return Ok;
      } else if s.state == PwPassword {
        i := Fill(password, s.arg0, s.passlen, c);
        s := s.(arg0 := i);
        if i == s.passlen {
          s := s.(state := ReqVersion);
          return AuthVerify;
        }
        return Ok;
      } else if s.state == ReqDaddr {
        i := Fill(daddr, s.arg0, s.arg1, c);
        s := s.(arg0 := i);
        if i == s.arg1 {
          s := s.(state := ReqDport0);
        }
        return Ok;
      } else {
        e := Scalar(c);
      }
    }

    // s5_parse; what is left of the data is data[used..].
    method Parse(data: seq<Byte>) returns (e: Event, used: nat)
      requires Sound()
      modifies this, username, password, daddr
      ensures Sound() && Outcome(Abs(), e, used) == Parsed(old(Abs()), data)
    {
      used := 0;
      while used < |data|
        invariant used <= |data| && Sound()
        invariant Parsed(old(Abs()), data) == Skip(Parsed(Abs(), data[used..]), used)
      {
        var c := data[used];
        assert data[used..][1..] == data[used + 1..];
        used := used + 1;
        e := Accept(c);
        if e != Ok {
          return;
        }
      }
      e := Ok;
    }

    // s5_select_auth; the result is false for -EINVAL.
    method SelectAuth(m: Auth) returns (ok: bool)
      requires Sound()
      modifies this
      ensures Sound() && ok == (m != AuthGssapi)
      ensures s == if m == AuthNone then old(s).(state := ReqVersion)
        else if m == AuthPasswd then old(s).(state := PwVersion) else old(s)
    {
      match m {
        case AuthNone => s := s.(state := ReqVersion);
        case AuthPasswd => s := s.(state := PwVersion);
        case AuthGssapi => return false;
      }
      return true;
    }
  }
}
