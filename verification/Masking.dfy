/** Match data, masks and what a flower filter accepts (rules.c, private/rules.h). */
module Masking {
  type Byte = bv8

  datatype Target =
    | NONE | SRC_MAC | DST_MAC | SRC_IPV4 | DST_IPV4 | SRC_IPV6 | DST_IPV6
    | ENC_KEY_ID | ENC_KEY_SRC_IPV4 | ENC_KEY_SRC_IPV6 | ENC_KEY_DST_IPV4 | ENC_KEY_DST_IPV6

  const MAX_MATCHES := 2
  const MAX_MATCH_LEN := 16

  /** `union lsdn_matchdata` */
  type MatchData = d: seq<Byte> | |d| == MAX_MATCH_LEN witness Zeros
  const Zeros: seq<Byte> := seq(MAX_MATCH_LEN, _ => 0)

  /** The match data of a rule, one entry per match target; also the key of a flower rule. */
  type Matches = m: seq<MatchData> | |m| == MAX_MATCHES witness [Zeros, Zeros]
  type Targets = t: seq<Target> | |t| == MAX_MATCHES witness [NONE, NONE]

  /** `lsdn_target_supports_masking` */
  predicate SupportsMasking(t: Target)
  {
    t != NONE && t != ENC_KEY_ID
  }

  /** The bytes of the packet field that a target compares. */
  function Width(t: Target): (n: nat)
    ensures n <= MAX_MATCH_LEN
  {
    match t
    case NONE => 0
    case SRC_MAC | DST_MAC => 6
    case SRC_IPV4 | DST_IPV4 | ENC_KEY_ID | ENC_KEY_SRC_IPV4 | ENC_KEY_DST_IPV4 => 4
    case SRC_IPV6 | DST_IPV6 | ENC_KEY_SRC_IPV6 | ENC_KEY_DST_IPV6 => 16
  }

  datatype EthType = ETH_P_ALL | ETH_P_IP | ETH_P_IPV6

  /** `key_ethtype` */
  function KeyEthType(t: Target): EthType
  {
    match t
    case SRC_IPV4 | DST_IPV4 => ETH_P_IP
    case SRC_IPV6 | DST_IPV6 => ETH_P_IPV6
    case _ => ETH_P_ALL
  }

  predicate AnyOf(targets: Targets, kinds: set<Target>)
  {
    targets[0] in kinds || targets[1] in kinds
  }

  /** No two targets need different kinds of packets. */
  ghost predicate OneEthType(targets: Targets)
  {
    forall i, j :: 0 <= i < j < MAX_MATCHES && KeyEthType(targets[i]) != ETH_P_ALL && KeyEthType(targets[j]) != ETH_P_ALL ==>
      KeyEthType(targets[i]) == KeyEthType(targets[j])
  }

  /** `find_common_ethtype`: fails exactly for targets that mix IPv4 and IPv6. */
  method FindCommonEthType(targets: Targets) returns (ok: bool, eth: EthType)
    ensures ok <==> OneEthType(targets)
    ensures ok ==> forall i :: 0 <= i < MAX_MATCHES ==> KeyEthType(targets[i]) in {ETH_P_ALL, eth}
    ensures ok <==> !(AnyOf(targets, {SRC_IPV4, DST_IPV4}) && AnyOf(targets, {SRC_IPV6, DST_IPV6}))
    ensures ok ==> (eth == ETH_P_IP <==> AnyOf(targets, {SRC_IPV4, DST_IPV4}))
    ensures ok ==> (eth == ETH_P_IPV6 <==> AnyOf(targets, {SRC_IPV6, DST_IPV6}))
  {
    ok, eth := true, ETH_P_ALL;
    for i := 0 to MAX_MATCHES
      invariant ok && forall k :: 0 <= k < i ==> KeyEthType(targets[k]) in {ETH_P_ALL, eth}
      invariant eth != ETH_P_ALL ==> exists k :: 0 <= k < i && KeyEthType(targets[k]) == eth
    {
      var e := KeyEthType(targets[i]);
      if e != ETH_P_ALL {
        if eth != ETH_P_ALL && eth != e {
          ok := false;
          return;
        }
        eth := e;
      }
    }
  }

  // ---------------------------------------------------------------- masking

  /** Byte `j` of masked match data. */
  function MaskedByte(t: Target, mask: MatchData, data: MatchData, j: nat): Byte
    requires j < MAX_MATCH_LEN
  {
    if SupportsMasking(t) then data[j] & mask[j] else if j < Width(t) then data[j] else 0
  }

  function MaskedData(t: Target, mask: MatchData, data: MatchData): MatchData
  {
    seq(MAX_MATCH_LEN, j requires 0 <= j < MAX_MATCH_LEN => MaskedByte(t, mask, data, j))
  }

  function Masked(targets: Targets, masks: Matches, matches: Matches): Matches
  {
    seq(MAX_MATCHES, i requires 0 <= i < MAX_MATCHES => MaskedData(targets[i], masks[i], matches[i]))
  }

  /** `hard_mask` */
  method HardMask(data: MatchData, size: nat) returns (r: MatchData)
    requires size < MAX_MATCH_LEN
    ensures forall j :: 0 <= j < MAX_MATCH_LEN ==> r[j] == if j < size then data[j] else 0
  {
    r := data[..size] + seq(MAX_MATCH_LEN - size, _ => 0);
  }

  /** The inner loop of `lsdn_rule_apply_mask`. */
  method AndMask(data: MatchData, mask: MatchData) returns (r: MatchData)
    ensures forall k :: 0 <= k < MAX_MATCH_LEN ==> r[k] == data[k] & mask[k]
  {
    r := data;
    for j := 0 to MAX_MATCH_LEN
      invariant |r| == MAX_MATCH_LEN
      invariant forall k :: 0 <= k < MAX_MATCH_LEN ==> r[k] == if k < j then data[k] & mask[k] else data[k]
    {
      r := r[j := r[j] & mask[j]];
    }
  }

  /** `lsdn_rule_apply_mask` */
  method ApplyMask(targets: Targets, masks: Matches, matches: Matches) returns (r: Matches)
    ensures r == Masked(targets, masks, matches)
    ensures forall i, j :: 0 <= i < 2 && 0 <= j < 16 && targets[i] !in {NONE, ENC_KEY_ID} ==> r[i][j] == matches[i][j] & masks[i][j]
    ensures forall i, j :: 0 <= i < 2 && 0 <= j < 16 && targets[i] == ENC_KEY_ID ==> r[i][j] == if j < 4 then matches[i][j] else 0
    ensures forall i, j :: 0 <= i < 2 && 0 <= j < 16 && targets[i] == NONE ==> r[i][j] == 0
  {
    r := matches;
    for i := 0 to MAX_MATCHES
      invariant forall k :: 0 <= k < i ==> r[k] == MaskedData(targets[k], masks[k], matches[k])
      invariant forall k :: i <= k < MAX_MATCHES ==> r[k] == matches[k]
    {
      var data := r[i];
      if !SupportsMasking(targets[i]) {
        data := HardMask(data, if targets[i] == NONE then 0 else Width(ENC_KEY_ID));
      } else {
        data := AndMask(data, masks[i]);
      }
      assert data == MaskedData(targets[i], masks[i], matches[i]);
      r := r[i := data];
    }
  }

  // ---------------------------------------------------------------- packets

  /** The fields that a packet carries; an IPv4 target, say, is absent from an IPv6 packet. */
  type Packet = p: map<Target, seq<Byte>> | forall t :: t in p ==> |p[t]| == Width(t) witness map[]

  /** Two bytes agree in the bits of the mask. */
  predicate SameUnder(mask: Byte, a: Byte, b: Byte) { a & mask == b & mask }

  /** The kernel compares the masked packet field with the masked value; a tunnel key is compared exactly. */
  ghost predicate Accepts1(t: Target, mask: MatchData, data: MatchData, pkt: Packet)
  {
    t == NONE ||
    (t in pkt && forall j :: 0 <= j < Width(t) ==>
       if SupportsMasking(t) then SameUnder(mask[j], pkt[t][j], data[j]) else pkt[t][j] == data[j])
  }

  /** A field is compared under its mask, byte by byte over the length of the field. */
  lemma AcceptsField(t: Target, mask: MatchData, data: MatchData, pkt: Packet)
    requires t != NONE && t != ENC_KEY_ID
    ensures Accepts1(t, mask, data, pkt) <==>
            t in pkt && forall j :: 0 <= j < Width(t) ==> pkt[t][j] & mask[j] == data[j] & mask[j]
  {
    if t in pkt { SameField(Width(t), mask, pkt[t], data); }
  }

  lemma SameField(n: nat, mask: MatchData, field: seq<Byte>, data: MatchData)
    requires |field| == n <= MAX_MATCH_LEN
    ensures (forall j :: 0 <= j < n ==> SameUnder(mask[j], field[j], data[j])) <==>
            (forall j :: 0 <= j < n ==> field[j] & mask[j] == data[j] & mask[j])
  {}

  /** How long the fields are: a MAC 6 bytes, an IPv4 address and a tunnel key 4, an IPv6 address 16. */
  lemma FieldWidth(t: Target, pkt: Packet)
    requires t in pkt
    ensures |pkt[t]| == match t
                        case NONE => 0
                        case SRC_MAC | DST_MAC => 6
                        case SRC_IPV6 | DST_IPV6 | ENC_KEY_SRC_IPV6 | ENC_KEY_DST_IPV6 => 16
                        case _ => 4
  {}

  /** A tunnel key is compared as it is, whatever the mask; no target at all accepts everything. */
  lemma AcceptsKey(mask: MatchData, data: MatchData, pkt: Packet)
    ensures Accepts1(ENC_KEY_ID, mask, data, pkt) <==> ENC_KEY_ID in pkt && pkt[ENC_KEY_ID] == data[..4]
    ensures Accepts1(NONE, mask, data, pkt)
  {
    if ENC_KEY_ID in pkt {
      var key := pkt[ENC_KEY_ID];
      assert |key| == 4 && (key == data[..4] <==> forall j :: 0 <= j < 4 ==> key[j] == data[..4][j]);
    }
  }

  ghost predicate Accepts(targets: Targets, masks: Matches, matches: Matches, pkt: Packet)
  {
    forall i :: 0 <= i < MAX_MATCHES ==> Accepts1(targets[i], masks[i], matches[i], pkt)
  }

  /** No mask reaches beyond the field it is for. */
  ghost predicate MasksFit(targets: Targets, masks: Matches)
  {
    forall i, j :: 0 <= i < MAX_MATCHES && Width(targets[i]) <= j < MAX_MATCH_LEN ==> masks[i][j] == 0
  }

  lemma AndTwice(a: Byte, m: Byte)
    ensures (a & m) & m == a & m
  {}

  /** Masking a rule does not change which packets it accepts. */
  lemma MaskingKeepsMeaning(targets: Targets, masks: Matches, matches: Matches, pkt: Packet)
    ensures Accepts(targets, masks, Masked(targets, masks, matches), pkt) <==> Accepts(targets, masks, matches, pkt)
  {
    hide Accepts1;
    forall i | 0 <= i < MAX_MATCHES
      ensures Accepts1(targets[i], masks[i], Masked(targets, masks, matches)[i], pkt) <==> Accepts1(targets[i], masks[i], matches[i], pkt)
    {
      MaskingKeepsField(targets[i], masks[i], matches[i], pkt);
    }
  }

  lemma MaskingKeepsField(t: Target, mask: MatchData, data: MatchData, pkt: Packet)
    ensures Accepts1(t, mask, MaskedData(t, mask, data), pkt) <==> Accepts1(t, mask, data, pkt)
  {
    forall j | 0 <= j < MAX_MATCH_LEN
      ensures (data[j] & mask[j]) & mask[j] == data[j] & mask[j]
    {
      AndTwice(data[j], mask[j]);
    }
  }

  lemma MaskingIsIdempotent(targets: Targets, masks: Matches, matches: Matches)
    ensures Masked(targets, masks, Masked(targets, masks, matches)) == Masked(targets, masks, matches)
  {
    var once := Masked(targets, masks, matches);
    forall i | 0 <= i < MAX_MATCHES ensures Masked(targets, masks, once)[i] == once[i] {
      forall j | 0 <= j < MAX_MATCH_LEN ensures Masked(targets, masks, once)[i][j] == once[i][j] {
        AndTwice(matches[i][j], masks[i][j]);
      }
    }
  }

  /** Under one set of masks, two keys that accept the same packet are the same key. */
  lemma KeysAreDisjoint(targets: Targets, masks: Matches, a: Matches, b: Matches, pkt: Packet)
    requires MasksFit(targets, masks)
    requires Accepts(targets, masks, a, pkt) && Accepts(targets, masks, b, pkt)
    ensures Masked(targets, masks, a) == Masked(targets, masks, b)
  {
    forall i, j | 0 <= i < MAX_MATCHES && 0 <= j < MAX_MATCH_LEN
      ensures Masked(targets, masks, a)[i][j] == Masked(targets, masks, b)[i][j]
    {
      assert Accepts1(targets[i], masks[i], a[i], pkt) && Accepts1(targets[i], masks[i], b[i], pkt);
      if j >= Width(targets[i]) { assert masks[i][j] == 0; }
    }
    forall i | 0 <= i < MAX_MATCHES ensures Masked(targets, masks, a)[i] == Masked(targets, masks, b)[i] {}
  }
}
