// Membership events of a user's device chain and their signed encoding.
module UserEvents {
  import opened Wrappers
  import opened Ids

  type Byte = x: nat | x < 256
  type Octets = seq<Byte>

  // Fixed-width fields.
  type Hash32 = s: Octets | |s| == 32 witness seq(32, _ => 0)
  type Nonce16 = s: Octets | |s| == 16 witness seq(16, _ => 0)

  type UserId = Hash32
  type Device = Hash32

  const USER_VERSION: Byte := 1

  // "cyrene/user-identity/1"
  const USER_DOMAIN: Octets :=
    [99, 121, 114, 101, 110, 101, 47, 117, 115, 101, 114, 45, 105, 100, 101, 110, 116, 105, 116, 121, 47, 49]

  const NO_PREDECESSOR: Hash32 :=
    [0, 0, 0, 0, 0, 0, 0, 0, 0, 0, 0, 0, 0, 0, 0, 0,
     0, 0, 0, 0, 0, 0, 0, 0, 0, 0, 0, 0, 0, 0, 0, 0]

  datatype Action = Add(device: Device) | Remove(device: Device)

  datatype Event = Event(version: Byte, user: UserId, sequence: U64, previous: Hash32, nonce: Option<Nonce16>,
                         action: Action, actor: Device, signature: Octets)

  // ---- encoding ----

  function BigEndian(n: nat, width: nat): (r: Octets)
    ensures |r| == width
  {
    if width == 0 then [] else BigEndian(n / 256, width - 1) + [n % 256]
  }

  function Power(width: nat): nat {
    if width == 0 then 1 else 256 * Power(width - 1)
  }

  lemma {:induction false} BigEndianInjective(m: nat, n: nat, width: nat)
    requires m < Power(width) && n < Power(width)
    requires BigEndian(m, width) == BigEndian(n, width)
    ensures m == n
  {
    if width > 0 {
      var a, b := BigEndian(m, width), BigEndian(n, width);
      assert a[..width - 1] == BigEndian(m / 256, width - 1) && b[..width - 1] == BigEndian(n / 256, width - 1);
      assert a[width - 1] == m % 256 && b[width - 1] == n % 256;
      BigEndianInjective(m / 256, n / 256, width - 1);
    }
  }

  lemma U64FitsEight(n: U64)
    ensures n < Power(8)
  {
    assert Power(8) == 256 * 256 * 256 * 256 * 256 * 256 * 256 * 256;
  }

  // A value behind its length.
  function Framed(value: Octets): Octets {
    BigEndian(|value|, 8) + value
  }

  function NonceBytes(nonce: Option<Nonce16>): Octets {
    match nonce
    case Some(n) => [1] + Framed(n)
    case None => [0]
  }

  function ActionBytes(action: Action): Octets {
    match action
    case Add(device) => [0] + Framed(device)
    case Remove(device) => [1] + Framed(device)
  }

  function Header(e: Event): Octets {
    Framed(USER_DOMAIN) + Framed([e.version]) + Framed(e.user) + Framed(BigEndian(e.sequence, 8)) + Framed(e.previous)
  }

  function SigningBytes(e: Event): Octets {
    Header(e) + (NonceBytes(e.nonce) + (ActionBytes(e.action) + Framed(e.actor)))
  }

  function DigestInput(e: Event): Octets {
    SigningBytes(e) + Framed(e.signature)
  }

  // ---- the encoding tells events apart ----

  lemma SplitSame(a: Octets, b: Octets, c: Octets, d: Octets)
    requires a + b == c + d && |a| == |c|
    ensures a == c && b == d
  {
    assert (a + b)[..|a|] == a && (c + d)[..|c|] == c;
    assert (a + b)[|a|..] == b && (c + d)[|c|..] == d;
  }

  lemma FramedLength(value: Octets)
    ensures |Framed(value)| == 8 + |value|
  {}

  lemma FramedInjective(a: Octets, b: Octets)
    requires Framed(a) == Framed(b)
    ensures a == b
  {
    SplitSame(BigEndian(|a|, 8), a, BigEndian(|b|, 8), b);
  }

  lemma HeaderInjective(a: Event, b: Event)
    requires Header(a) == Header(b)
    ensures a.version == b.version && a.user == b.user && a.sequence == b.sequence && a.previous == b.previous
  {
    hide BigEndian, Framed;
    var d := Framed(USER_DOMAIN);
    FramedLength([a.version]); FramedLength([b.version]);
    FramedLength(a.user); FramedLength(b.user);
    FramedLength(BigEndian(a.sequence, 8)); FramedLength(BigEndian(b.sequence, 8));
    FramedLength(a.previous); FramedLength(b.previous);
    SplitSame(d + Framed([a.version]) + Framed(a.user) + Framed(BigEndian(a.sequence, 8)), Framed(a.previous),
              d + Framed([b.version]) + Framed(b.user) + Framed(BigEndian(b.sequence, 8)), Framed(b.previous));
    SplitSame(d + Framed([a.version]) + Framed(a.user), Framed(BigEndian(a.sequence, 8)),
              d + Framed([b.version]) + Framed(b.user), Framed(BigEndian(b.sequence, 8)));
    SplitSame(d + Framed([a.version]), Framed(a.user), d + Framed([b.version]), Framed(b.user));
    SplitSame(d, Framed([a.version]), d, Framed([b.version]));
    FramedInjective([a.version], [b.version]);
    assert [a.version][0] == [b.version][0];
    FramedInjective(a.user, b.user);
    FramedInjective(BigEndian(a.sequence, 8), BigEndian(b.sequence, 8));
    U64FitsEight(a.sequence);
    U64FitsEight(b.sequence);
    BigEndianInjective(a.sequence, b.sequence, 8);
    FramedInjective(a.previous, b.previous);
  }

  lemma HeaderLength(e: Event)
    ensures |Header(e)| == |USER_DOMAIN| + 8 + 9 + 40 + 16 + 40
  {}

  lemma NonceInjective(a: Option<Nonce16>, x: Octets, b: Option<Nonce16>, y: Octets)
    requires NonceBytes(a) + x == NonceBytes(b) + y
    ensures a == b && x == y
  {
    assert (NonceBytes(a) + x)[0] == NonceBytes(a)[0] && (NonceBytes(b) + y)[0] == NonceBytes(b)[0];
    SplitSame(NonceBytes(a), x, NonceBytes(b), y);
    if a.Some? {
      SplitSame([1], Framed(a.value), [1], Framed(b.value));
      FramedInjective(a.value, b.value);
    }
  }

  lemma ActionInjective(a: Action, x: Octets, b: Action, y: Octets)
    requires ActionBytes(a) + x == ActionBytes(b) + y
    ensures a == b && x == y
  {
    assert (ActionBytes(a) + x)[0] == ActionBytes(a)[0] && (ActionBytes(b) + y)[0] == ActionBytes(b)[0];
    SplitSame(ActionBytes(a), x, ActionBytes(b), y);
    SplitSame([ActionBytes(a)[0]], Framed(a.device), [ActionBytes(b)[0]], Framed(b.device));
    FramedInjective(a.device, b.device);
  }

  // The digest covers every field of an event: nothing but the event itself
  // has its bytes.
  lemma DigestInputInjective(a: Event, b: Event)
    requires DigestInput(a) == DigestInput(b)
    ensures a == b
  {
    hide BigEndian, Framed, Header, NonceBytes, ActionBytes;
    HeaderLength(a);
    HeaderLength(b);
    var restA := ActionBytes(a.action) + Framed(a.actor);
    var restB := ActionBytes(b.action) + Framed(b.actor);
    Regroup(Header(a), NonceBytes(a.nonce), restA, Framed(a.signature));
    Regroup(Header(b), NonceBytes(b.nonce), restB, Framed(b.signature));
    SplitSame(Header(a), NonceBytes(a.nonce) + (restA + Framed(a.signature)),
              Header(b), NonceBytes(b.nonce) + (restB + Framed(b.signature)));
    HeaderInjective(a, b);
    NonceInjective(a.nonce, restA + Framed(a.signature), b.nonce, restB + Framed(b.signature));
    Regroup([], ActionBytes(a.action), Framed(a.actor), Framed(a.signature));
    Regroup([], ActionBytes(b.action), Framed(b.actor), Framed(b.signature));
    ActionInjective(a.action, Framed(a.actor) + Framed(a.signature), b.action, Framed(b.actor) + Framed(b.signature));
    FramedLength(a.actor);
    FramedLength(b.actor);
    SplitSame(Framed(a.actor), Framed(a.signature), Framed(b.actor), Framed(b.signature));
    FramedInjective(a.actor, b.actor);
    FramedInjective(a.signature, b.signature);
  }

  lemma Regroup(a: Octets, b: Octets, c: Octets, d: Octets)
    ensures (a + (b + c)) + d == a + (b + (c + d))
    ensures a == [] ==> (b + c) + d == b + (c + d)
  {}

  // The encoding of an event has a fixed length but for its nonce and signature.
  lemma EncodingLength(e: Event)
    ensures |SigningBytes(e)| == 216 + (if e.nonce.Some? then 25 else 1)
    ensures |DigestInput(e)| == |SigningBytes(e)| + 8 + |e.signature|
  {
    hide BigEndian;
    HeaderLength(e);
  }
}
