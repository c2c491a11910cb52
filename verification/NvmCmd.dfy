// NVMe command construction (include/nvm_cmd.h): the dwords of a read or write
// command, and chains of PRP lists, against the controller's reading of them.
module NvmCmd {
  import opened Bits
  import opened Options

  const D16: nat := 0x1_0000
  const D32: nat := 0x1_0000_0000

  // ----- command dwords -----

  /** What the controller reads from the sixteen dwords of a command. */
  datatype Command = Command(cid: nat, opcode: nat, fuse: nat, psdt: nat, ns: nat,
                             prp1: nat, prp2: nat, lba: nat, blocks: nat)

  function Decode(dw: seq<nat>): Command
    requires |dw| == 16
  {
    Command(dw[0] / D16, dw[0] % 256, dw[0] / 256 % 4, dw[0] / 16384 % 4, dw[1],
            dw[6] + D32 * dw[7], dw[8] + D32 * dw[9], dw[10] + D32 * dw[11], dw[12] % D16 + 1)
  }

  /** The number-of-blocks field: a 16-bit argument, stored less one. */
  function BlocksField(n: nat): nat {
    (n % D16 + 0xffff) % D16
  }

  lemma BlocksFieldExact(n: nat)
    ensures BlocksField(n) + 1 == n <==> 1 <= n <= D16
  {
  }

  method NvmCmdHeader(cmd: array<nat>, cid: nat, opcode: nat, ns: nat)
    requires cmd.Length == 16 && cid < D16
    modifies cmd
    ensures cmd[0] == cid * D16 + opcode % 128 && cmd[1] == ns
    ensures forall i | 2 <= i < 16 :: cmd[i] == old(cmd[i])
  {
    cmd[0] := cid * D16 + opcode % 128;
    cmd[1] := ns;
  }

  /** Clears the PSDT bits (15:14) and the FUSE bits (9:8). */
  function ClearTransferBits(d: nat): nat {
    d / D16 * D16 + d % 16384 / 1024 * 1024 + d % 256
  }

  method NvmCmdDataPtr(cmd: array<nat>, prp1: nat, prp2: nat)
    requires cmd.Length == 16
    modifies cmd
    ensures cmd[0] == ClearTransferBits(old(cmd[0]))
    ensures cmd[6] == prp1 % D32 && cmd[7] == prp1 / D32 && cmd[8] == prp2 % D32 && cmd[9] == prp2 / D32
    ensures forall i | 1 <= i < 6 || 10 <= i < 16 :: cmd[i] == old(cmd[i])
  {
    cmd[0] := ClearTransferBits(cmd[0]);
    cmd[6] := prp1 % D32;
    cmd[7] := prp1 / D32;
    cmd[8] := prp2 % D32;
    cmd[9] := prp2 / D32;
  }

  method NvmCmdRwBlks(cmd: array<nat>, lba: nat, blocks: nat)
    requires cmd.Length == 16
    modifies cmd
    ensures cmd[10] == lba % D32 && cmd[11] == lba / D32
    ensures cmd[12] == old(cmd[12]) / D16 * D16 + BlocksField(blocks)
    ensures forall i | 0 <= i < 10 || 13 <= i < 16 :: cmd[i] == old(cmd[i])
  {
    cmd[10] := lba % D32;
    cmd[11] := lba / D32;
    cmd[12] := cmd[12] / D16 * D16 + BlocksField(blocks);
  }

  /** Building a command and reading it back gives every field, whatever the dwords held before. */
  method BuildCommand(cmd: array<nat>, cid: nat, opcode: nat, ns: nat, lba: nat, blocks: nat, prp1: nat, prp2: nat)
    requires cmd.Length == 16 && cid < D16 && opcode < 128 && 1 <= blocks <= D16
    modifies cmd
    ensures Decode(cmd[..]) == Command(cid, opcode, 0, 0, ns, prp1, prp2, lba, blocks)
  {
    hide ClearTransferBits, BlocksField;
    NvmCmdHeader(cmd, cid, opcode, ns);
    HeaderFields(cid, opcode);
    NvmCmdDataPtr(cmd, prp1, prp2);
    ghost var high := cmd[12] / D16;
    NvmCmdRwBlks(cmd, lba, blocks);
    BlocksFieldExact(blocks);
    DivModUnique(cmd[12], D16, high, blocks - 1);
  }

  lemma HeaderFields(cid: nat, opcode: nat)
    requires opcode < 128
    ensures var d := ClearTransferBits(cid * D16 + opcode);
            d / D16 == cid && d % 256 == opcode && d / 256 % 4 == 0 && d / 16384 % 4 == 0
  {
    var d := cid * D16 + opcode;
    DivModUnique(d, D16, cid, opcode);
    DivModUnique(d, 16384, cid * 4, opcode);
    DivModUnique(d, 256, cid * 256, opcode);
    assert ClearTransferBits(d) == d;
    DivModUnique(cid * 256, 4, cid * 64, 0);
    DivModUnique(cid * 4, 4, cid, 0);
  }

  // ----- PRP lists, as the controller walks them -----

  /** The list page at an IO address; `|ios|` if there is none. */
  function Find(ios: seq<nat>, addr: nat): (l: nat)
    ensures l <= |ios| && (l < |ios| ==> ios[l] == addr)
    ensures l == |ios| ==> addr !in ios
  {
    if ios == [] then 0 else if ios[|ios| - 1] == addr then |ios| - 1
    else var l := Find(ios[..|ios| - 1], addr); if l == |ios| - 1 then |ios| else l
  }

  /** The `n` data pages described by the list at `addr`, whose pages hold `m + 1` entries. When more
      pages remain than a page has entries, its last entry points to the next list. */
  function WalkList(pages: seq<seq<nat>>, ios: seq<nat>, m: nat, addr: nat, n: nat): Option<seq<nat>>
    requires m > 0 && |pages| == |ios| && forall l | 0 <= l < |pages| :: |pages[l]| == m + 1
    decreases n
  {
    var l := Find(ios, addr);
    if l == |ios| then None
    else if n <= m + 1 then Some(pages[l][..n])
    else match WalkList(pages, ios, m, pages[l][m], n - m)
      case None => None
      case Some(rest) => Some(pages[l][..m] + rest)
  }

  /** The data pages of a transfer of `n` pages. */
  function WalkData(pages: seq<seq<nat>>, ios: seq<nat>, m: nat, prp1: nat, prp2: nat, n: nat): Option<seq<nat>>
    requires m > 0 && |pages| == |ios| && forall l | 0 <= l < |pages| :: |pages[l]| == m + 1
  {
    if n == 0 then Some([]) else if n == 1 then Some([prp1]) else if n == 2 then Some([prp1, prp2])
    else match WalkList(pages, ios, m, prp2, n - 1)
      case None => None
      case Some(rest) => Some([prp1] + rest)
  }

  ghost predicate DistinctAddresses(ios: seq<nat>) {
    forall i, j | 0 <= i < j < |ios| :: ios[i] != ios[j]
  }

  lemma FindAt(ios: seq<nat>, l: nat)
    requires DistinctAddresses(ios) && l < |ios|
    ensures Find(ios, ios[l]) == l
  {
    var f := Find(ios, ios[l]);
    assert ios[l] in ios;
  }

  // ----- building the chain -----

  ghost predicate PageShape(pages: seq<seq<nat>>, m: nat) {
    forall l | 0 <= l < |pages| :: |pages[l]| == m + 1
  }

  /** `nvm_prp_list`: fill one page, keeping its last entry free when the data does not fit. */
  method PrpList(lists: array<seq<nat>>, l: nat, m: nat, data: seq<nat>) returns (n: nat)
    requires l < lists.Length && |lists[l]| == m + 1
    modifies lists
    ensures n == if |data| > m + 1 then m else |data|
    ensures |lists[l]| == m + 1 && lists[l][..n] == data[..n]
    ensures forall k | 0 <= k < lists.Length && k != l :: lists[k] == old(lists[k])
  {
    n := m + 1;
    if |data| > n { n := n - 1; } else { n := |data|; }
    for i := 0 to n
      invariant |lists[l]| == m + 1 && lists[l][..i] == data[..i]
      invariant forall k | 0 <= k < lists.Length && k != l :: lists[k] == old(lists[k])
    {
      lists[l] := lists[l][i := data[i]];
    }
  }

  /** Lists `[l, used)` carry `data`: full segments linked one to the next, then the rest. */
  ghost predicate Carries(pages: seq<seq<nat>>, ios: seq<nat>, m: nat, l: nat, used: nat, data: seq<nat>)
    requires |pages| == |ios| && PageShape(pages, m)
    decreases used - l
  {
    && l < used <= |pages|
    && if l + 1 == used then |data| <= m + 1 && pages[l][..|data|] == data
       else && |data| > m + 1 && pages[l][..m] == data[..m] && pages[l][m] == ios[l + 1]
            && Carries(pages, ios, m, l + 1, used, data[m..])
  }

  lemma OneLess(k: nat, m: nat)
    requires k > 0
    ensures k * m == (k - 1) * m + m && (k == 1 ==> k * m == m)
  {
  }

  /** Adding a list behind full ones extends what they carry. */
  lemma {:induction false} CarriesAppend(pages: seq<seq<nat>>, ios: seq<nat>, m: nat, l: nat, used: nat,
                                         data: seq<nat>, more: seq<nat>, page: seq<nat>)
    requires |pages| == |ios| && PageShape(pages, m) && m >= 2
    requires Carries(pages, ios, m, l, used, data) && |data| == (used - l) * m && used < |pages|
    requires |page| == m + 1 && 2 <= |more| <= m + 1 && page[..|more|] == more
    ensures var pages' := pages[used - 1 := pages[used - 1][m := ios[used]]][used := page];
            PageShape(pages', m) && Carries(pages', ios, m, l, used + 1, data + more)
    decreases used - l
  {
    var pages' := pages[used - 1 := pages[used - 1][m := ios[used]]][used := page];
    OneLess(used - l, m);
    if l + 1 == used {
      assert (data + more)[m..] == more;
    } else {
      CarriesAppend(pages, ios, m, l + 1, used, data[m..], more, page);
      assert (data + more)[m..] == data[m..] + more;
    }
  }

  lemma {:induction false} CarriesWalk(pages: seq<seq<nat>>, ios: seq<nat>, m: nat, l: nat, used: nat, data: seq<nat>)
    requires |pages| == |ios| && PageShape(pages, m) && m >= 2 && DistinctAddresses(ios)
    requires Carries(pages, ios, m, l, used, data)
    ensures WalkList(pages, ios, m, ios[l], |data|) == Some(data)
    decreases used - l
  {
    FindAt(ios, l);
    if l + 1 < used {
      CarriesWalk(pages, ios, m, l + 1, used, data[m..]);
      assert data == data[..m] + data[m..];
    }
  }

  /** How many of `n` entries a chain of `nLists` lists of `m + 1` entries takes. */
  function ChainCapacity(n: nat, nLists: nat, m: nat): nat {
    if nLists == 0 then 0
    else if n <= (nLists - 1) * m + (m + 1) then n
    else nLists * m
  }

  /** State of the chain loop after `i` lists: `n` entries placed, either all or `m` per list. */
  ghost predicate ChainState(pages: seq<seq<nat>>, ios: seq<nat>, m: nat, i: nat, n: nat, data: seq<nat>) {
    && |pages| == |ios| && PageShape(pages, m) && 0 < i <= |pages| && n <= |data|
    && Carries(pages, ios, m, 0, i, data[..n])
    && (n < |data| ==> n == i * m && |data| > n + 1)
    && (n == |data| ==> n <= (i - 1) * m + (m + 1) && (i > 1 ==> n > (i - 2) * m + (m + 1)))
  }

  lemma ChainFirst(pages: seq<seq<nat>>, ios: seq<nat>, m: nat, data: seq<nat>, n: nat)
    requires |pages| == |ios| > 0 && PageShape(pages, m)
    requires n == if |data| > m + 1 then m else |data|
    requires pages[0][..n] == data[..n]
    ensures ChainState(pages, ios, m, 1, n, data)
  {
  }

  lemma ChainNext(pages: seq<seq<nat>>, pages': seq<seq<nat>>, ios: seq<nat>, m: nat, i: nat, n: nat, k: nat, data: seq<nat>)
    requires ChainState(pages, ios, m, i, n, data) && i < |pages| == |pages'| && n < |data| && m >= 2
    requires k == if |data| - n > m + 1 then m else |data| - n
    requires |pages'[i]| == m + 1 && pages'[i][..k] == data[n..n + k]
    requires pages' == pages[i - 1 := pages[i - 1][m := ios[i]]][i := pages'[i]]
    ensures ChainState(pages', ios, m, i + 1, n + k, data)
  {
    assert (i + 1) * m == i * m + m && i * m == (i - 1) * m + m;
    assert data[..n] + data[n..n + k] == data[..n + k];
    CarriesAppend(pages, ios, m, 0, i, data[..n], data[n..n + k], pages'[i]);
  }

  lemma ChainEnd(pages: seq<seq<nat>>, ios: seq<nat>, m: nat, i: nat, n: nat, data: seq<nat>)
    requires ChainState(pages, ios, m, i, n, data) && (i == |pages| || n == |data|)
    ensures n == ChainCapacity(|data|, |pages|, m)
  {
    if n == |data| {
      MulMonotone(i - 1, |pages| - 1, m);
    } else {
      assert i * m == (i - 1) * m + m;
    }
  }

  /** `nvm_prp_list_chain`. */
  method PrpListChain(lists: array<seq<nat>>, ios: seq<nat>, m: nat, data: seq<nat>) returns (n: nat)
    requires lists.Length == |ios| && PageShape(lists[..], m) && m >= 2
    modifies lists
    ensures n == ChainCapacity(|data|, |ios|, m) && PageShape(lists[..], m)
    ensures |ios| > 0 ==> exists used :: ChainState(lists[..], ios, m, used, n, data)
  {
    if lists.Length == 0 { return 0; }
    var k := PrpList(lists, 0, m, data);
    n := k;
    ChainFirst(lists[..], ios, m, data, n);
    var i := 1;
    while i < lists.Length && n < |data|
      invariant ChainState(lists[..], ios, m, i, n, data)
      invariant n < |data| ==> k == m
      decreases lists.Length - i
    {
      ghost var pages: seq<seq<nat>> := lists[..];
      hide ChainState, Carries;
      ChainShape(pages, ios, m, i, n, data);
      lists[i - 1] := lists[i - 1][k := ios[i]];
      k := PrpList(lists, i, m, data[n..]);
      assert data[n..][..k] == data[n..n + k];
      assert lists[..] == pages[i - 1 := pages[i - 1][m := ios[i]]][i := lists[i]];
      ChainNext(pages, lists[..], ios, m, i, n, k, data);
      n := n + k;
      i := i + 1;
    }
    ChainEnd(lists[..], ios, m, i, n, data);
  }

  lemma ChainShape(pages: seq<seq<nat>>, ios: seq<nat>, m: nat, i: nat, n: nat, data: seq<nat>)
    requires ChainState(pages, ios, m, i, n, data)
    ensures PageShape(pages, m) && 0 < i <= |pages| == |ios| && n <= |data|
  {
  }

  /** How many of the `n` pages of a transfer a command with `nLists` lists covers. */
  function Covered(n: nat, nLists: nat, m: nat): nat {
    if n <= 2 then n else if nLists == 0 then 2 else 1 + ChainCapacity(n - 1, nLists, m)
  }

  /** A transfer is covered whole exactly when it needs no list or the lists have room. */
  lemma CoveredWhole(n: nat, nLists: nat, m: nat)
    requires m > 0
    ensures Covered(n, nLists, m) <= n
    ensures Covered(n, nLists, m) == n <==> n <= 2 || (nLists > 0 && n - 1 <= (nLists - 1) * m + (m + 1))
  {
    if nLists > 0 {
      assert nLists * m == (nLists - 1) * m + m;
    }
  }

  lemma WalkChain(pages: seq<seq<nat>>, ios: seq<nat>, m: nat, used: nat, k: nat, ioaddrs: seq<nat>)
    requires m >= 2 && DistinctAddresses(ios) && |ioaddrs| > 2
    requires ChainState(pages, ios, m, used, k, ioaddrs[1..])
    ensures k >= 2 && PageShape(pages, m) && |pages| == |ios| > 0
    ensures WalkData(pages, ios, m, ioaddrs[0], ios[0], 1 + k) == Some(ioaddrs[..1 + k])
  {
    if k < |ioaddrs[1..]| {
      MulMonotone(1, used, m);
    }
    CarriesWalk(pages, ios, m, 0, used, ioaddrs[1..][..k]);
    hide Carries, WalkList;
    assert [ioaddrs[0]] + ioaddrs[1..][..k] == ioaddrs[..1 + k];
  }

  /** `nvm_cmd_data`. Walking the result yields the pages it was given, in order: all of them
      when the lists suffice, and otherwise exactly the prefix whose length is returned. */
  method NvmCmdData(cmd: array<nat>, lists: array<seq<nat>>, ios: seq<nat>, m: nat, ioaddrs: seq<nat>) returns (n: nat)
    requires cmd.Length == 16 && lists.Length == |ios| && PageShape(lists[..], m) && m >= 2 && DistinctAddresses(ios)
    modifies cmd, lists
    ensures n == Covered(|ioaddrs|, |ios|, m) <= |ioaddrs|
    ensures PageShape(lists[..], m)
    ensures n > 0 ==> WalkData(lists[..], ios, m, Decode(cmd[..]).prp1, Decode(cmd[..]).prp2, n) == Some(ioaddrs[..n])
    ensures n == |ioaddrs| <==>
              |ioaddrs| <= 2 || (|ios| > 0 && |ioaddrs| - 1 <= (|ios| - 1) * m + (m + 1))
  {
    CoveredWhole(|ioaddrs|, |ios|, m);
    if |ioaddrs| == 0 { return 0; }
    var dptr0, dptr1 := ioaddrs[0], 0;
    n := 1;
    if |ioaddrs| > 2 && lists.Length != 0 {
      var k := PrpListChain(lists, ios, m, ioaddrs[1..]);
      n := 1 + k;
      dptr1 := ios[0];
      ghost var used :| ChainState(lists[..], ios, m, used, k, ioaddrs[1..]);
      WalkChain(lists[..], ios, m, used, k, ioaddrs);
    } else if |ioaddrs| >= 2 {
      dptr1 := ioaddrs[1];
      n := 2;
    }
    assert ioaddrs[..1] == [ioaddrs[0]] && (|ioaddrs| > 1 ==> ioaddrs[..2] == [ioaddrs[0], ioaddrs[1]]);
    assert n > 0 && WalkData(lists[..], ios, m, dptr0, dptr1, n) == Some(ioaddrs[..n]);
    hide WalkData, WalkList, ChainCapacity, Covered, PageShape, Decode;
    ghost var pages := lists[..];
    WriteDataPtr(cmd, dptr0, dptr1);
    assert lists[..] == pages;
  }

  method WriteDataPtr(cmd: array<nat>, prp1: nat, prp2: nat)
    requires cmd.Length == 16
    modifies cmd
    ensures Decode(cmd[..]).prp1 == prp1 && Decode(cmd[..]).prp2 == prp2
  {
    NvmCmdDataPtr(cmd, prp1, prp2);
  }
}
