/** Staging and commit of the link settings: remote writes collect in a buffer
    and take effect together, or not at all. */
module CfgStage {
  import opened Words
  import opened Config

  const STAGE_TIMEOUT_MS: nat := 30000
  const FIELDS: nat := 9

  /** Field numbers follow the registers 0x1E..0x20 and 0x22..0x27. */
  const ADDR: nat := 0
  const SPEED: nat := 1
  const PARITY: nat := 2
  const IP_H: nat := 3
  const IP_L: nat := 4
  const NM_H: nat := 5
  const NM_L: nat := 6
  const GW_H: nat := 7
  const GW_L: nat := 8

  const SERIAL: set<nat> := {0, 1, 2}
  const ETHER: set<nat> := {3, 4, 5, 6, 7, 8}

  datatype Link = Rtu | Tcp

  datatype Stat = Idle | Staged | CommitOk | RejRange | RejSameLink | RejRunning | RejTimeout {
    /** The code shown in register 0x29. */
    function Code(): u16 {
      match this
      case Idle => 0
      case Staged => 1
      case CommitOk => 2
      case RejRange => 3
      case RejSameLink => 4
      case RejRunning => 5
      case RejTimeout => 6
    }
  }

  datatype Stage = Stage(val: seq<u16>, dirty: set<nat>, at: u32, stat: Stat) {
    /** The status tells whether an edit is pending. */
    ghost predicate Valid() {
      && |val| == FIELDS && (forall i :: i in dirty ==> i < FIELDS)
      && (dirty == {} <==> stat.Idle? || stat.CommitOk? || stat.RejTimeout?)
    }
  }

  const EMPTY: Stage := Stage([0, 0, 0, 0, 0, 0, 0, 0, 0], {}, 0, Idle)

  function Written(s: Stage, i: nat, v: u16, now: u32): (s': Stage)
    requires s.Valid() && i < FIELDS
    ensures s'.Valid()
  {
    Stage(s.val[i := v], s.dirty + {i}, now, Staged)
  }

  function Discarded(s: Stage): Stage { s.(dirty := {}, stat := Idle) }

  function Ticked(s: Stage, now: u32): Stage {
    if s.dirty != {} && Elapsed(now, s.at) >= STAGE_TIMEOUT_MS then s.(dirty := {}, stat := RejTimeout) else s
  }

  /** Every dirty serial field is inside its range. Addresses are not checked. */
  predicate InRange(s: Stage)
    requires |s.val| == FIELDS
  {
    && (ADDR in s.dirty ==> ADDR_MIN <= s.val[ADDR] <= ADDR_MAX)
    && (SPEED in s.dirty ==> s.val[SPEED] <= SPEED_IDX_MAX)
    && (PARITY in s.dirty ==> s.val[PARITY] <= PARITY_IDX_MAX)
  }

  /** A commit may not touch the settings of the link it arrives on. */
  predicate OtherLink(s: Stage, link: Link) {
    if link.Rtu? then s.dirty * SERIAL == {} else s.dirty * ETHER == {}
  }

  predicate Commits(s: Stage, link: Link, running: bool)
    requires |s.val| == FIELDS
  {
    s.dirty != {} && InRange(s) && OtherLink(s, link) && !running
  }

  function Committed(s: Stage, link: Link, running: bool): (s': Stage)
    requires s.Valid()
    ensures s'.Valid() && s'.val == s.val
  {
    if s.dirty == {} then s
    else if !InRange(s) then s.(stat := RejRange)
    else if !OtherLink(s, link) then s.(stat := RejSameLink)
    else if running then s.(stat := RejRunning)
    else s.(dirty := {}, stat := CommitOk)
  }

  /** A rejected commit keeps the whole edit and says why; a commit that goes
      through clears it and says so; an empty commit says nothing new. */
  lemma CommitOutcome(s: Stage, link: Link, running: bool)
    requires s.Valid()
    ensures var s' := Committed(s, link, running);
      && (Commits(s, link, running) ==> s'.dirty == {} && s'.stat == CommitOk)
      && (!Commits(s, link, running) ==> s'.dirty == s.dirty && s'.val == s.val)
      && (!Commits(s, link, running) && s.dirty != {} ==>
        s'.stat.RejRange? || s'.stat.RejSameLink? || s'.stat.RejRunning?)
      && (s.dirty == {} ==> s' == s)
  {
  }

  /** After a commit the status reads COMMIT_OK exactly when that commit went
      through, or when it was empty and the status already read so. */
  lemma CommitOkMeans(s: Stage, link: Link, running: bool)
    requires s.Valid()
    ensures Committed(s, link, running).stat == CommitOk <==>
            Commits(s, link, running) || (s.dirty == {} && s.stat == CommitOk)
  {
  }

  /** An expired edit is gone: committing it afterwards never reads COMMIT_OK. */
  lemma ExpiredNeverCommits(s: Stage, now: u32, link: Link, running: bool)
    requires s.Valid() && s.dirty != {} && Elapsed(now, s.at) >= 30000
    ensures Committed(Ticked(s, now), link, running).stat == RejTimeout
    ensures !Commits(Ticked(s, now), link, running)
  {
  }

  /** The empty commit that does read COMMIT_OK: one sent right after a commit
      that went through. */
  lemma EmptyCommitCanReadOk(s: Stage, link: Link)
    requires s.Valid() && Commits(s, link, false)
    ensures var once := Committed(s, link, false);
      once.dirty == {} && !Commits(once, link, false) && Committed(once, link, false).stat == CommitOk
  {
  }

  // --- Taking effect ---

  /** stg_apply_to_cfg: each dirty field replaces its bytes. */
  function Taken(n: Net, d: set<nat>, val: seq<u16>): (n': Net)
    requires |val| == FIELDS
  {
    Net(if ADDR in d then Lo(val[ADDR]) else n.addr,
        if SPEED in d then Lo(val[SPEED]) else n.speed,
        if PARITY in d then Lo(val[PARITY]) else n.parity,
        n.mode,
        Halves(n.ip, IP_H in d, val[IP_H], IP_L in d, val[IP_L]),
        Halves(n.nm, NM_H in d, val[NM_H], NM_L in d, val[NM_L]),
        Halves(n.gw, GW_H in d, val[GW_H], GW_L in d, val[GW_L]))
  }

  function Halves(o: Octets, h: bool, hv: u16, l: bool, lv: u16): Octets {
    [if h then Hi(hv) else o[0], if h then Lo(hv) else o[1], if l then Hi(lv) else o[2], if l then Lo(lv) else o[3]]
  }

  /** stg_mirror_val: the live value of a field as a register word. */
  function Live(n: Net, i: nat): (w: u16) {
    if i == ADDR then n.addr
    else if i == SPEED then n.speed
    else if i == PARITY then n.parity
    else if i == IP_H then Join(n.ip[0], n.ip[1])
    else if i == IP_L then Join(n.ip[2], n.ip[3])
    else if i == NM_H then Join(n.nm[0], n.nm[1])
    else if i == NM_L then Join(n.nm[2], n.nm[3])
    else if i == GW_H then Join(n.gw[0], n.gw[1])
    else Join(n.gw[2], n.gw[3])
  }

  /** Exactly the dirty fields take their staged values, read back without
      loss; every other field keeps its own, and so does the link mode. */
  lemma CommitTakesExactlyDirty(s: Stage, n: Net, link: Link, running: bool)
    requires s.Valid() && Commits(s, link, running)
    ensures var n' := Taken(n, s.dirty, s.val);
      && n'.mode == n.mode
      && (forall i :: 0 <= i < FIELDS ==> Live(n', i) == if i in s.dirty then s.val[i] else Live(n, i))
  {
    hide Taken, Live;
    forall i | 0 <= i < FIELDS
      ensures Live(Taken(n, s.dirty, s.val), i) == if i in s.dirty then s.val[i] else Live(n, i)
    {
      FieldTaken(n, s, i);
    }
    ModeKept(n, s.dirty, s.val);
  }

  lemma FieldTaken(n: Net, s: Stage, i: nat)
    requires s.Valid() && InRange(s) && i < FIELDS
    ensures Live(Taken(n, s.dirty, s.val), i) == if i in s.dirty then s.val[i] else Live(n, i)
  {
    JoinSplit(s.val[i]);
    if i < 3 {
      SmallIsLow(s.val[i]);
    }
    hide Join, Hi, Lo;
  }

  lemma SmallIsLow(v: u16)
    ensures v < 0x100 ==> Lo(v) == v
  {
  }

  lemma ModeKept(n: Net, d: set<nat>, val: seq<u16>)
    requires |val| == FIELDS
    ensures Taken(n, d, val).mode == n.mode
  {
  }

  lemma NotDirty(d: set<nat>, group: set<nat>)
    requires d * group == {}
    ensures forall i :: i in group ==> i !in d
  {
    forall i | i in group
      ensures i !in d
    {
      assert i in d ==> i in d * group;
    }
  }

  /** The two link groups: a commit over RTU leaves the serial settings alone,
      one over TCP leaves the addresses alone. */
  lemma CommitSparesOwnLink(s: Stage, n: Net, link: Link, running: bool)
    requires s.Valid() && Commits(s, link, running)
    ensures var n' := Taken(n, s.dirty, s.val);
      && (link.Rtu? ==> SameSerial(n, n')) && (link.Tcp? ==> SameEther(n, n'))
  {
    if link.Rtu? {
      NotDirty(s.dirty, SERIAL);
    } else {
      NotDirty(s.dirty, ETHER);
    }
  }

  predicate SameSerial(n: Net, n': Net) { n'.addr == n.addr && n'.speed == n.speed && n'.parity == n.parity }

  predicate SameEther(n: Net, n': Net) { n'.ip == n.ip && n'.nm == n.nm && n'.gw == n.gw }

  // --- In terms of field numbers ---

  lemma EtherFields(d: set<nat>)
    ensures d * ETHER != {} <==> exists i :: 3 <= i < 9 && i in d
  {
    if i :| 3 <= i < 9 && i in d {
      assert i in d * ETHER;
    }
    if d * ETHER != {} {
      var i :| i in d * ETHER;
      assert 3 <= i < 9 && i in d;
    }
  }

  lemma SerialFields(d: set<nat>)
    ensures d * SERIAL != {} <==> 0 in d || 1 in d || 2 in d
  {
    if 0 in d || 1 in d || 2 in d {
      var i :| i in d && i < 3;
      assert i in d * SERIAL;
    }
  }

  /** What a commit that does not go through answers: out of range before own
      link before running, codes 3, 4 and 5 of register 0x29; an empty one
      leaves the status alone. */
  lemma RejectionSays(s: Stage, link: Link, running: bool)
    requires s.Valid()
    ensures
      var d, code := s.dirty, Committed(s, link, running).stat.Code();
      if d == {} then Committed(s, link, running) == s
      else if !((0 in d ==> 1 <= s.val[0] <= 247) && (1 in d ==> s.val[1] <= 5) && (2 in d ==> s.val[2] <= 2)) then
        code == 3
      else if (link.Rtu? && (0 in d || 1 in d || 2 in d)) || (link.Tcp? && exists i :: 3 <= i < 9 && i in d) then
        code == 4
      else if running then code == 5
      else code == 2
  {
    EtherFields(s.dirty);
    SerialFields(s.dirty);
  }

  /** The octets of an address are staged high byte first; the serial fields
      take the low byte of their word; what is not dirty stays. */
  lemma TakenOctets(n: Net, d: set<nat>, val: seq<u16>)
    requires |val| == 9
    ensures
      var t := Taken(n, d, val);
      && t.addr == (if 0 in d then val[0] % 0x100 else n.addr)
      && t.speed == (if 1 in d then val[1] % 0x100 else n.speed)
      && t.parity == (if 2 in d then val[2] % 0x100 else n.parity) && t.mode == n.mode
      && t.ip[..2] == (if 3 in d then [val[3] / 0x100, val[3] % 0x100] else n.ip[..2])
      && t.ip[2..] == (if 4 in d then [val[4] / 0x100, val[4] % 0x100] else n.ip[2..])
      && t.nm[..2] == (if 5 in d then [val[5] / 0x100, val[5] % 0x100] else n.nm[..2])
      && t.nm[2..] == (if 6 in d then [val[6] / 0x100, val[6] % 0x100] else n.nm[2..])
      && t.gw[..2] == (if 7 in d then [val[7] / 0x100, val[7] % 0x100] else n.gw[..2])
      && t.gw[2..] == (if 8 in d then [val[8] / 0x100, val[8] % 0x100] else n.gw[2..])
  {
  }

  // --- The buffer ---

  class Staging {
    const val: array<u16>
    var dirty: set<nat>
    var at: u32
    var stat: Stat

    ghost function State(): Stage
      reads this, val
    {
      Stage(val[..], dirty, at, stat)
    }

    ghost predicate Valid()
      reads this, val
    {
      State().Valid()
    }

    constructor ()
      ensures Valid() && fresh(val) && State() == EMPTY
    {
      val := new u16[FIELDS](i => 0);
      dirty := {};
      at := 0;
      stat := Idle;
    }

    method Write(i: nat, v: u16, now: u32)
      requires Valid() && i < FIELDS
      modifies this, val
      ensures Valid() && State() == Written(old(State()), i, v, now)
    {
      val[i] := v;
      dirty := dirty + {i};
      at := now;
      stat := Staged;
    }

    method Discard()
      requires Valid()
      modifies this
      ensures Valid() && State() == Discarded(old(State()))
    {
      dirty := {};
      stat := Idle;
    }

    method Tick(now: u32)
      requires Valid()
      modifies this
      ensures Valid() && State() == Ticked(old(State()), now)
    {
      if dirty == {} {
        return;
      }
      if Elapsed(now, at) >= STAGE_TIMEOUT_MS {
        dirty := {};
        stat := RejTimeout;
      }
    }

    /** cfg_stage_commit: range first, then same-link, then running. */
    method Commit(link: Link, running: bool) returns (ok: bool)
      requires Valid()
      modifies this
      ensures Valid() && State() == Committed(old(State()), link, running)
      ensures ok == Commits(old(State()), link, running)
    {
      var d := dirty;
      if d == {} {
        return false;
      }
      if ADDR in d && (val[ADDR] < ADDR_MIN || val[ADDR] > ADDR_MAX) {
        stat := RejRange;
        return false;
      }
      if SPEED in d && val[SPEED] > SPEED_IDX_MAX {
        stat := RejRange;
        return false;
      }
      if PARITY in d && val[PARITY] > PARITY_IDX_MAX {
        stat := RejRange;
        return false;
      }
      if (link == Rtu && d * SERIAL != {}) || (link == Tcp && d * ETHER != {}) {
        stat := RejSameLink;
        return false;
      }
      if running {
        stat := RejRunning;
        return false;
      }
      dirty := {};
      stat := CommitOk;
      return true;
    }
  }
}
