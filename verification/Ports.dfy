/** The port blocks handed to each user and application (calculate_ports in
    shared/deployApp.sh). */
module Ports {
  import opened Options

  const RANGE_START := 6000
  const RANGE_RESERVED := 100
  const RANGE_PORTS_PER_APPLICATION := 12

  /** The application number configured for this repository in conf/deploy.ini. */
  const APPLICATION_IDENTITY_NUMBER := 8

  const PORT_NAMES := [
    "HTTPS_PORT", "HTTP_PORT", "HTTPS_PORT1", "HTTP_PORT1", "HTTPS_PORT2", "HTTP_PORT2",
    "HTTPS_PORT3", "HTTP_PORT3", "HTTPS_PORT4", "HTTP_PORT4", "HTTPS_PORT5", "HTTP_PORT5"]

  function Base(user: nat, app: nat): nat {
    RANGE_START + user * RANGE_RESERVED + app * RANGE_PORTS_PER_APPLICATION
  }

  /** Port p belongs to the block of this user and application. */
  ghost predicate InBlock(user: nat, app: nat, p: int) {
    Base(user, app) <= p < Base(user, app) + RANGE_PORTS_PER_APPLICATION
  }

  /** Two names differ in length, or in the digit they end with. */
  lemma NamesAreDistinct()
    ensures |PORT_NAMES| == RANGE_PORTS_PER_APPLICATION
    ensures forall j, k | 0 <= j < k < |PORT_NAMES| :: PORT_NAMES[j] != PORT_NAMES[k]
  {
    forall k | 0 <= k < |PORT_NAMES|
      ensures |PORT_NAMES[k]| == (if k % 2 == 0 then 10 else 9) + (if k < 2 then 0 else 1)
      ensures k >= 2 ==> PORT_NAMES[k][|PORT_NAMES[k]| - 1] == "12345"[k / 2 - 1]
    {
    }
  }

  predicate Holds(ports: map<string, int>, name: string, number: int) {
    name in ports && ports[name] == number
  }

  /** Which variable gets which number. */
  predicate Assigns(ports: map<string, int>, base: int) {
    && Holds(ports, "HTTPS_PORT", base) && Holds(ports, "HTTP_PORT", base + 1)
    && Holds(ports, "HTTPS_PORT1", base + 2) && Holds(ports, "HTTP_PORT1", base + 3)
    && Holds(ports, "HTTPS_PORT2", base + 4) && Holds(ports, "HTTP_PORT2", base + 5)
    && Holds(ports, "HTTPS_PORT3", base + 6) && Holds(ports, "HTTP_PORT3", base + 7)
    && Holds(ports, "HTTPS_PORT4", base + 8) && Holds(ports, "HTTP_PORT4", base + 9)
    && Holds(ports, "HTTPS_PORT5", base + 10) && Holds(ports, "HTTP_PORT5", base + 11)
  }

  lemma AssignsByName(ports: map<string, int>, base: int)
    requires forall k | 0 <= k < |PORT_NAMES| :: Holds(ports, PORT_NAMES[k], base + k)
    ensures Assigns(ports, base)
  {
    var names := PORT_NAMES;
    assert Holds(ports, names[0], base) && Holds(ports, names[1], base + 1) && Holds(ports, names[2], base + 2);
    assert Holds(ports, names[3], base + 3) && Holds(ports, names[4], base + 4) && Holds(ports, names[5], base + 5);
    assert Holds(ports, names[6], base + 6) && Holds(ports, names[7], base + 7) && Holds(ports, names[8], base + 8);
    assert Holds(ports, names[9], base + 9) && Holds(ports, names[10], base + 10) && Holds(ports, names[11], base + 11);
  }

  /** The shell variables the script assigns.  `userId` is None when USER_ID is not made of
      digits only. */
  class Environment {
    var userId: Option<nat>
    var ports: map<string, int>
    const app: nat

    constructor (userId: Option<nat>, app: nat)
      ensures this.userId == userId && this.app == app && ports == map[]
    {
      this.userId, this.app, ports := userId, app, map[];
    }

    /** The loop: consecutive numbers from `base`, in the order of the names. */
    method AssignConsecutive(names: seq<string>, base: int)
      requires forall j, k | 0 <= j < k < |names| :: names[j] != names[k]
      modifies this`ports
      ensures forall n :: n in ports <==> n in old(ports) || n in names
      ensures forall k | 0 <= k < |names| :: ports[names[k]] == base + k
      ensures forall n | n in old(ports) && n !in names :: ports[n] == old(ports[n])
    {
      var offset := 0;
      for k := 0 to |names|
        invariant offset == k
        invariant forall n :: n in ports <==> n in old(ports) || n in names[..k]
        invariant forall j | 0 <= j < k :: ports[names[j]] == base + j
        invariant forall n | n in old(ports) && n !in names :: ports[n] == old(ports[n])
      {
        ports := ports[names[k] := base + offset];
        offset := offset + 1;
        assert names[..k + 1] == names[..k] + [names[k]];
      }
      assert names[..|names|] == names;
    }

    /** Each port variable gets its offset from the base, nothing else is assigned, and the
        numbers assigned are exactly the block. */
    method CalculatePorts()
      modifies this
      ensures userId.Some? && userId.value == if old(userId).Some? then old(userId).value else 0
      ensures forall n :: n in ports <==> n in old(ports) || n in PORT_NAMES
      ensures forall k | 0 <= k < |PORT_NAMES| :: ports[PORT_NAMES[k]] == Base(userId.value, app) + k
      ensures forall n | n in old(ports) && n !in PORT_NAMES :: ports[n] == old(ports[n])
      ensures Assigns(ports, 6000 + 100 * userId.value + 12 * app)
      ensures forall p | InBlock(userId.value, app, p) :: exists n :: n in PORT_NAMES && ports[n] == p
    {
      if userId.None? {
        userId := Some(0);
      }
      var begin := RANGE_START + userId.value * RANGE_RESERVED;
      var base := begin + app * RANGE_PORTS_PER_APPLICATION;
      NamesAreDistinct();
      var names := PORT_NAMES;
      AssignConsecutive(names, base);
      AssignsByName(ports, base);
      forall p | InBlock(userId.value, app, p) ensures exists n :: n in names && ports[n] == p {
        var k := p - base;
        assert 0 <= k < |names|;
        assert names[k] in names && ports[names[k]] == p;
      }
    }
  }

  // ---------------------------------------------------------------- when blocks meet

  ghost predicate Disjoint(u: nat, a: nat, u': nat, a': nat) {
    forall p :: !(InBlock(u, a, p) && InBlock(u', a', p))
  }

  function Distance(u: nat, a: nat, u': nat, a': nat): int {
    RANGE_RESERVED * (u - u') + RANGE_PORTS_PER_APPLICATION * (a - a')
  }

  lemma BlocksMeetIff(u: nat, a: nat, u': nat, a': nat)
    ensures !Disjoint(u, a, u', a') <==> -12 < Distance(u, a, u', a') < 12
  {
    var b: int, b': int := Base(u, a), Base(u', a');
    assert b - b' == Distance(u, a, u', a');
    if b <= b' < b + 12 {
      assert InBlock(u, a, b') && InBlock(u', a', b');
    } else if b' <= b < b' + 12 {
      assert InBlock(u, a, b) && InBlock(u', a', b);
    }
  }

  /** No two different (user, application) pairs share a port. */
  ghost predicate AllDisjoint(maxApp: nat) {
    forall u: nat, a: nat, u': nat, a': nat | a <= maxApp && a' <= maxApp && (u, a) != (u', a') ::
      Disjoint(u, a, u', a')
  }

  /** MAIN RESULT.  The scheme is collision-free for application numbers up to 7, and for no
      larger bound. */
  lemma SafeApplicationNumbers(maxApp: nat)
    ensures AllDisjoint(maxApp) <==> maxApp <= 7
  {
    if maxApp <= 7 {
      forall u: nat, a: nat, u': nat, a': nat | a <= maxApp && a' <= maxApp && (u, a) != (u', a')
        ensures Disjoint(u, a, u', a')
      {
        BlocksMeetIff(u, a, u', a');
      }
    } else {
      BlocksMeetIff(0, 8, 1, 0);
      assert !Disjoint(0, 8, 1, 0);
    }
  }

  lemma OneApplicationIsSafe(u: nat, u': nat, a: nat)
    requires u != u'
    ensures Disjoint(u, a, u', a)
  {
    BlocksMeetIff(u, a, u', a);
  }

  /** With whom the configured application shares ports, whatever numbers the others have:
      with application 0 of the next user, with nobody beyond, with no other application of
      its own user, and with one or two of each user before, numbered 16 and above. */
  lemma ConfiguredApplication(u: nat, u': nat, a': nat)
    requires (u', a') != (u, APPLICATION_IDENTITY_NUMBER)
    ensures u' > u ==> (!Disjoint(u, APPLICATION_IDENTITY_NUMBER, u', a') <==> u' == u + 1 && a' == 0)
    ensures u' == u ==> Disjoint(u, APPLICATION_IDENTITY_NUMBER, u', a')
    ensures u' < u ==> (!Disjoint(u, APPLICATION_IDENTITY_NUMBER, u', a') <==>
                        a' == 8 + 25 * (u - u') / 3 || a' == 8 + (25 * (u - u') + 2) / 3)
  {
    BlocksMeetIff(u, APPLICATION_IDENTITY_NUMBER, u', a');
  }
}
