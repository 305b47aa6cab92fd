/**
 * src/wgtray/monitor.py: the netlink watcher. It reads batches of rtnetlink
 * messages and emits `changed` once for each link message (RTM_NEWLINK or
 * RTM_DELLINK, section 3.1.1 of RFC 3549) that concerns a WireGuard link.
 * The socket and the thread are left out: the batches are an input.
 */
module Monitor {
  import opened Wrappers
  import opened Text

  /** A message attribute: a text such as IFLA_IFNAME, or a nested attribute
      list such as IFLA_LINKINFO. */
  datatype Attr = Plain(text: string) | Nested(attrs: seq<(string, string)>)

  /** A message: its `event` (if it has one) and its attribute pairs. */
  datatype Message = Message(event: Option<string>, attrs: seq<(string, Attr)>)

  /** A batch as `ipr.get` returns it, or the exception it raised. */
  datatype Batch = Received(msgs: seq<Message>) | Failed

  /** What the filter does with one message. `Raises` stands for the
      exception that Python meets when an attribute has the wrong shape;
      it drops the rest of the batch. */
  datatype Verdict = Emit | Skip | Raises

  /** `dict(pairs).get(key)`: the last pair with that key wins. */
  function Lookup<V(==)>(pairs: seq<(string, V)>, key: string): (r: Option<V>)
    ensures r.None? <==> forall i :: 0 <= i < |pairs| ==> pairs[i].0 != key
    ensures r.Some? ==> exists i :: 0 <= i < |pairs| && pairs[i] == (key, r.value) && LastWith(pairs, key, i)
  {
    if pairs == [] then None
    else if pairs[|pairs| - 1].0 == key then Some(pairs[|pairs| - 1].1)
    else
      var init := pairs[..|pairs| - 1];
      var r := Lookup(init, key);
      if r.Some? then
        var i :| 0 <= i < |init| && init[i] == (key, r.value) && LastWith(init, key, i);
        assert pairs[i] == (key, r.value);
        assert forall j :: i < j < |pairs| - 1 ==> pairs[j] == init[j];
        r
      else r
  }

  /** No pair after index `i` has the key `key`. */
  predicate LastWith<V>(pairs: seq<(string, V)>, key: string, i: nat) {
    forall j :: i < j < |pairs| ==> pairs[j].0 != key
  }

  predicate IsLinkEvent(event: string) {
    event == "RTM_NEWLINK" || event == "RTM_DELLINK"
  }

  /** The filter of `run`'s loop body. */
  function Classify(m: Message): (v: Verdict)
    ensures v != Skip ==> m.event.Some? && IsLinkEvent(m.event.value)
  {
    var event := m.event.GetOr("");
    if !IsLinkEvent(event) then Skip
    else
      var ifname := Lookup(m.attrs, "IFLA_IFNAME").GetOr(Plain(""));
      var linkinfo := Lookup(m.attrs, "IFLA_LINKINFO");
      // `if linkinfo:` — a missing or empty attribute counts as absent
      var present := linkinfo.Some? && (match linkinfo.value
                                        case Plain(t) => t != ""
                                        case Nested(a) => a != []);
      if present && linkinfo.value.Plain? then Raises
      else
        var isWg := present && Lookup(linkinfo.value.attrs, "IFLA_INFO_KIND") == Some("wireguard");
        if isWg then Emit
        else if ifname.Nested? then Raises
        else if StartsWith(ifname.text, "wg") then Emit
        else Skip
  }

  /** A WireGuard link change as the design means it: a link event whose
      link kind is "wireguard" or whose interface name starts with "wg". */
  predicate IsWireGuardChange(m: Message) {
    && m.event.Some? && IsLinkEvent(m.event.value)
    && var linkinfo := Lookup(m.attrs, "IFLA_LINKINFO");
       var kind: Option<string> :=
         if linkinfo.Some? && linkinfo.value.Nested? then Lookup(linkinfo.value.attrs, "IFLA_INFO_KIND") else None;
       var ifname := Lookup(m.attrs, "IFLA_IFNAME");
       || kind == Some("wireguard")
       || (ifname.Some? && ifname.value.Plain? && StartsWith(ifname.value.text, "wg"))
  }

  /** Only link events emit, and what emits is a WireGuard link change; a
      well-formed WireGuard link change always emits. */
  lemma ClassifyMeaning(m: Message)
    ensures Classify(m) == Emit ==> IsWireGuardChange(m)
    ensures IsWireGuardChange(m) && Classify(m) != Raises ==> Classify(m) == Emit
    ensures m.event.None? ==> Classify(m) == Skip
  {
  }

  /** The number of `changed` signals one batch gives: one per emitting
      message, up to the first message that raises. */
  function BatchEmits(msgs: seq<Message>): (n: nat)
    ensures n <= |msgs|
  {
    if msgs == [] then 0
    else match Classify(msgs[0])
      case Emit => 1 + BatchEmits(msgs[1..])
      case Skip => BatchEmits(msgs[1..])
      case Raises => 0
  }

  /** The signals for a run of batches; a failed `get` gives none. */
  function Emitted(batches: seq<Batch>): nat {
    if batches == [] then 0
    else
      (match batches[0] case Received(msgs) => BatchEmits(msgs) case Failed => 0)
      + Emitted(batches[1..])
  }

  /** Each emit is owed to a WireGuard link change: a batch without one emits nothing. */
  lemma {:induction false} NoChangeNoEmit(msgs: seq<Message>)
    requires forall i :: 0 <= i < |msgs| ==> !IsWireGuardChange(msgs[i])
    ensures BatchEmits(msgs) == 0
  {
    if msgs != [] {
      ClassifyMeaning(msgs[0]);
      NoChangeNoEmit(msgs[1..]);
    }
  }

  /** Without malformed messages, every WireGuard link change emits once: no deduplication. */
  lemma {:induction false} EveryChangeEmits(msgs: seq<Message>)
    requires forall i :: 0 <= i < |msgs| ==> Classify(msgs[i]) != Raises
    requires forall i :: 0 <= i < |msgs| ==> IsWireGuardChange(msgs[i])
    ensures BatchEmits(msgs) == |msgs|
  {
    if msgs != [] {
      ClassifyMeaning(msgs[0]);
      EveryChangeEmits(msgs[1..]);
    }
  }

  /** The watcher thread's state. */
  class NetlinkMonitor {
    /** `_running`: cleared by `stop`, it ends the loop. */
    var running: bool
    /** `available`: whether the start-up probe of the netlink socket succeeded. */
    var available: bool

    constructor(probeSucceeds: bool)
      ensures running && available == probeSucceeds
    {
      running := true;
      available := probeSucceeds;
    }

    /** `run` over the batches the socket delivers while running: nothing
        when netlink is unavailable or the monitor was stopped. */
    method Run(batches: seq<Batch>) returns (signals: nat)
      ensures signals == (if available && running then Emitted(batches) else 0)
    {
      signals := 0;
      if !available {
        return;
      }
      var n := 0;
      while running && n < |batches|
        invariant 0 <= n <= |batches|
        invariant running || (n == 0 && signals == 0)
        invariant signals + Emitted(batches[n..]) == Emitted(batches)
        decreases |batches| - n
      {
        assert batches[n..][1..] == batches[n + 1..];
        var batch := batches[n];
        if batch.Received? {
          var msgs := batch.msgs;
          var k := 0;
          var raised := false;
          while k < |msgs| && !raised
            invariant 0 <= k <= |msgs|
            invariant !raised ==> signals + BatchEmits(msgs[k..]) + Emitted(batches[n + 1..]) == Emitted(batches)
            invariant raised ==> signals + Emitted(batches[n + 1..]) == Emitted(batches)
            decreases |msgs| - k, !raised
          {
            assert msgs[k..][1..] == msgs[k + 1..];
            match Classify(msgs[k]) {
              case Emit => signals := signals + 1;
              case Skip =>
              case Raises => raised := true;
            }
            if !raised {
              k := k + 1;
            }
          }
        }
        n := n + 1;
      }
      assert running ==> batches[n..] == [];
    }

    /** `stop`: clears the running flag. */
    method Stop()
      modifies this
      ensures !running && available == old(available)
    {
      running := false;
    }
  }
}
