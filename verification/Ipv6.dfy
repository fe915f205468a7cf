/**
 The rule for IPv6 addresses, an ordered choice of nine alternatives over greedy repetitions, against forms 1 and 2 of
 section 2.2 of RFC 4291. A parser maps a text to what it leaves unread.
 */
module Ipv6 {
  import opened Core

  // ---- The rule ----

  predicate IsHex(c: char) {
    '0' <= c <= '9' || 'a' <= c <= 'f' || 'A' <= c <= 'F'
  }

  function HexRun(s: string, most: nat): (n: nat)
    ensures n <= |s| && n <= most
    decreases most
  {
    if most > 0 && s != [] && IsHex(s[0]) then 1 + HexRun(s[1..], most - 1) else 0
  }

  /** tIPv6HexQuat: repeat(1, 4)[xdigit]. */
  function Quat(s: string): (r: Option<string>)
    ensures r.Some? ==> |r.value| < |s|
  {
    var n := HexRun(s, 4);
    if n == 0 then None else Some(s[n..])
  }

  function Lit(s: string, text: string): (r: Option<string>)
    ensures r.Some? ==> |r.value| + |text| == |s|
  {
    if text <= s then Some(s[|text|..]) else None
  }

  /** tIPv6HexQuat >> lit(":") */
  function QuatColon(s: string): (r: Option<string>)
    ensures r.Some? ==> |r.value| < |s|
  {
    var q := Quat(s);
    if q.None? then None else Lit(q.value, ":")
  }

  /** repeat(n)[tIPv6HexQuat >> lit(":")] >> tIPv6HexQuat: exactly n + 1 groups. */
  function Groups(s: string, n: nat): Option<string>
    decreases n
  {
    if n == 0 then Quat(s)
    else
      var first := QuatColon(s);
      if first.None? then None else Groups(first.value, n - 1)
  }

  /** repeat(0, most)[(tIPv6HexQuat >> lit(":")) - (tIPv6HexQuat >> lit("::"))]: it never fails. */
  function LeadingGroups(s: string, most: nat): string
    decreases most
  {
    var q := Quat(s);
    if most == 0 || q.None? || Lit(q.value, "::").Some? || Lit(q.value, ":").None? then s
    else LeadingGroups(Lit(q.value, ":").value, most - 1)
  }

  /** -(repeat(0, most)[...] >> tIPv6HexQuat): without the last group everything is given back. */
  function OptionalLead(s: string, most: nat): string {
    var q := Quat(LeadingGroups(s, most));
    if q.Some? then q.value else s
  }

  /** -(repeat(0, 6 - after)[...] >> tIPv6HexQuat) >> lit("::") >> so many groups. */
  function Compressed(s: string, after: nat): Option<string>
    requires after <= 6
  {
    var rest := Lit(OptionalLead(s, 6 - after), "::");
    if rest.None? then None
    else if after == 0 then rest
    else Groups(rest.value, after - 1)
  }

  /** The alternatives with at most so many groups behind "::", most groups first. */
  function FirstCompressed(s: string, after: nat): Option<string>
    requires after <= 6
  {
    var r := Compressed(s, after);
    if r.Some? || after == 0 then r else FirstCompressed(s, after - 1)
  }

  /** "::" with seven groups behind it. */
  function AllBehind(s: string): Option<string> {
    var rest := Lit(s, "::");
    if rest.None? then None else Groups(rest.value, 6)
  }

  /** tIPv6Addr. */
  function Address(s: string): Option<string> {
    var full := Groups(s, 7);
    if full.Some? then full
    else
      var behind := AllBehind(s);
      if behind.Some? then behind else FirstCompressed(s, 6)
  }

  /** The whole token is an address. */
  predicate Accepts(s: string) {
    Address(s) == Some("")
  }

  // ---- RFC 4291, section 2.2 ----

  /** One to four hexadecimal digits. */
  predicate IsGroup(g: string) {
    1 <= |g| <= 4 && forall i | 0 <= i < |g| :: IsHex(g[i])
  }

  predicate AreGroups(gs: seq<string>) {
    forall i | 0 <= i < |gs| :: IsGroup(gs[i])
  }

  function Joined(gs: seq<string>): string {
    if gs == [] then "" else if |gs| == 1 then gs[0] else gs[0] + ":" + Joined(gs[1..])
  }

  /** Form 1: eight groups. */
  ghost predicate FormOne(s: string) {
    exists gs :: AreGroups(gs) && |gs| == 8 && Joined(gs) == s
  }

  /** Form 2: one "::" standing for at least one group of zeros. */
  ghost predicate FormTwo(s: string) {
    exists before, after :: IsFormTwo(s, before, after)
  }

  predicate IsFormTwo(s: string, before: seq<string>, after: seq<string>) {
    AreGroups(before) && AreGroups(after) && |before| + |after| <= 7 && s == Joined(before) + ("::" + Joined(after))
  }

  // ---- Groups ----

  /** What follows a group: the end, or a character that is no digit. */
  predicate StopsGroup(rest: string) {
    rest == [] || !IsHex(rest[0])
  }

  lemma {:induction false} RunAll(g: string, rest: string, most: nat)
    requires |g| <= most && (forall i | 0 <= i < |g| :: IsHex(g[i])) && StopsGroup(rest)
    ensures HexRun(g + rest, most) == |g|
    decreases |g|
  {
    if g == [] {
      assert g + rest == rest;
    } else {
      assert (g + rest)[1..] == g[1..] + rest;
      RunAll(g[1..], rest, most - 1);
    }
  }

  lemma QuatReads(g: string, rest: string)
    requires IsGroup(g) && StopsGroup(rest)
    ensures Quat(g + rest) == Some(rest)
  {
    RunAll(g, rest, 4);
    assert (g + rest)[|g|..] == rest;
  }

  lemma {:induction false} RunHex(s: string, most: nat)
    ensures forall i | 0 <= i < HexRun(s, most) :: IsHex(s[i])
    decreases most
  {
    if most > 0 && s != [] && IsHex(s[0]) {
      RunHex(s[1..], most - 1);
    }
  }

  /** A successful group is the text it has consumed. */
  lemma QuatSound(s: string) returns (g: string)
    requires Quat(s).Some?
    ensures IsGroup(g) && s == g + Quat(s).value
  {
    RunHex(s, 4);
    var n := HexRun(s, 4);
    g := s[..n];
    assert s == s[..n] + s[n..];
  }

  lemma QuatFails(rest: string)
    requires StopsGroup(rest)
    ensures Quat(rest) == None
  {
  }

  lemma LitReads(text: string, rest: string)
    ensures Lit(text + rest, text) == Some(rest)
  {
    assert (text + rest)[|text|..] == rest;
  }

  lemma LitSound(s: string, text: string)
    requires Lit(s, text).Some?
    ensures s == text + Lit(s, text).value
  {
  }

  lemma JoinedTail(gs: seq<string>, rest: string)
    requires |gs| > 1
    ensures Joined(gs) + rest == gs[0] + (":" + (Joined(gs[1..]) + rest))
  {
  }

  lemma ColonStops(rest: string)
    ensures StopsGroup(":" + rest) && StopsGroup("::" + rest) && StopsGroup("")
  {
  }

  // ---- Exactly n + 1 groups ----

  lemma {:induction false} GroupsRead(gs: seq<string>, rest: string)
    requires AreGroups(gs) && gs != [] && StopsGroup(rest)
    ensures Groups(Joined(gs) + rest, |gs| - 1) == Some(rest)
    decreases |gs|
  {
    hide IsGroup, Quat, Lit, StopsGroup;
    if |gs| == 1 {
      QuatReads(gs[0], rest);
    } else {
      var more := Joined(gs[1..]) + rest;
      JoinedTail(gs, rest);
      ColonStops(more);
      QuatReads(gs[0], ":" + more);
      LitReads(":", more);
      GroupsRead(gs[1..], rest);
    }
  }

  lemma {:induction false} GroupsSound(s: string, n: nat) returns (gs: seq<string>)
    requires Groups(s, n).Some?
    ensures AreGroups(gs) && |gs| == n + 1 && s == Joined(gs) + Groups(s, n).value
    decreases n
  {
    hide IsGroup, Quat, Lit;
    if n == 0 {
      var g := QuatSound(s);
      gs := [g];
    } else {
      var g := QuatSound(s);
      LitSound(Quat(s).value, ":");
      var more := GroupsSound(QuatColon(s).value, n - 1);
      gs := [g] + more;
      assert gs[1..] == more;
      JoinedTail(gs, Groups(s, n).value);
    }
  }

  /** More groups than there are cannot be read. */
  lemma {:induction false} GroupsTooMany(gs: seq<string>, rest: string, n: nat)
    requires AreGroups(gs) && |gs| <= n && StopsGroup(rest) && (rest == "" || "::" <= rest)
    ensures Groups(Joined(gs) + rest, n) == None
    decreases |gs|
  {
    hide IsGroup, Quat;
    if gs == [] {
      assert Joined(gs) + rest == rest;
      QuatFails(rest);
    } else if |gs| == 1 {
      QuatReads(gs[0], rest);
      if rest != "" {
        assert rest == ":" + rest[1..];
        LitReads(":", rest[1..]);
        assert rest[1..][0] == ':';
        QuatFails(rest[1..]);
        NoGroups(rest[1..], n - 1);
      }
    } else {
      var more := Joined(gs[1..]) + rest;
      JoinedTail(gs, rest);
      ColonStops(more);
      QuatReads(gs[0], ":" + more);
      LitReads(":", more);
      GroupsTooMany(gs[1..], rest, n - 1);
    }
  }

  lemma NoGroups(s: string, n: nat)
    requires Quat(s) == None
    ensures Groups(s, n) == None
  {
  }

  // ---- What stands in front of "::" ----

  /** The last group is left to the optional lead. */
  lemma LeadStops(g: string, tail: string, most: nat)
    requires IsGroup(g)
    ensures LeadingGroups(g + ("::" + tail), most) == g + ("::" + tail)
  {
    hide IsGroup, Quat, StopsGroup, Lit;
    ColonStops(tail);
    QuatReads(g, "::" + tail);
    LitReads("::", tail);
  }

  /** A group with another one behind it is taken. */
  lemma LeadTakes(g: string, more: string, most: nat)
    requires IsGroup(g) && most > 0 && Lit(":" + more, "::") == None
    ensures LeadingGroups(g + (":" + more), most) == LeadingGroups(more, most - 1)
  {
    hide IsGroup, Quat, StopsGroup, Lit;
    ColonStops(more);
    QuatReads(g, ":" + more);
    LitReads(":", more);
  }

  lemma {:induction false} LeadReads(gs: seq<string>, tail: string, most: nat)
    requires AreGroups(gs) && gs != []
    ensures LeadingGroups(Joined(gs) + ("::" + tail), most) ==
      if |gs| - 1 <= most then Last(gs) + ("::" + tail) else Joined(gs[most..]) + ("::" + tail)
    decreases |gs|
  {
    hide IsGroup, LeadingGroups, Lit;
    var rest := "::" + tail;
    if |gs| == 1 {
      LeadStops(gs[0], tail, most);
      assert gs[0..] == gs;
    } else if most > 0 {
      JoinedTail(gs, rest);
      SingleColon(gs[1..], rest);
      LeadTakes(gs[0], Joined(gs[1..]) + rest, most);
      LeadReads(gs[1..], tail, most - 1);
      assert |gs| - 1 > most ==> gs[1..][most - 1..] == gs[most..];
    } else {
      NoLead(Joined(gs) + rest);
      assert gs[0..] == gs;
    }
  }

  lemma NoLead(s: string)
    ensures LeadingGroups(s, 0) == s
  {
    hide Quat, Lit;
  }

  lemma SingleColon(gs: seq<string>, rest: string)
    requires AreGroups(gs) && gs != []
    ensures Lit(":" + (Joined(gs) + rest), "::") == None
  {
    assert (":" + (Joined(gs) + rest))[1] == gs[0][0];
  }

  /** With few enough groups in front of "::" the optional lead is exactly these groups. */
  lemma LeadExact(gs: seq<string>, tail: string, most: nat)
    requires AreGroups(gs) && |gs| <= most + 1
    ensures OptionalLead(Joined(gs) + ("::" + tail), most) == "::" + tail
  {
    hide IsGroup, Quat, LeadingGroups, StopsGroup;
    var rest := "::" + tail;
    ColonStops(tail);
    if gs == [] {
      assert Joined(gs) + rest == rest;
      QuatFails(rest);
      LeadNone(rest, most);
    } else {
      LeadReads(gs, tail, most);
      QuatReads(Last(gs), rest);
    }
  }

  lemma LeadNone(s: string, most: nat)
    requires Quat(s) == None
    ensures LeadingGroups(s, most) == s
  {
  }

  /** What the lead consumes is groups. */
  lemma {:induction false} LeadSound(s: string, most: nat) returns (gs: seq<string>)
    ensures AreGroups(gs) && |gs| <= most
    ensures s == (if gs == [] then "" else Joined(gs) + ":") + LeadingGroups(s, most)
    decreases most
  {
    hide IsGroup, Quat, Lit;
    var q := Quat(s);
    if most == 0 || q.None? || Lit(q.value, "::").Some? || Lit(q.value, ":").None? {
      gs := [];
      assert "" + s == s;
    } else {
      var g := QuatSound(s);
      LitSound(q.value, ":");
      var rest := Lit(q.value, ":").value;
      var more := LeadSound(rest, most - 1);
      gs := [g] + more;
      assert gs[1..] == more;
      LeadJoin(g, more, LeadingGroups(rest, most - 1));
    }
  }

  lemma LeadJoin(g: string, more: seq<string>, tail: string)
    ensures g + (":" + ((if more == [] then "" else Joined(more) + ":") + tail)) == (Joined([g] + more) + ":") + tail
  {
    if more == [] {
      assert [g] + more == [g];
    } else {
      assert ([g] + more)[1..] == more;
    }
  }

  lemma OptionalLeadSound(s: string, most: nat) returns (gs: seq<string>)
    ensures AreGroups(gs) && |gs| <= most + 1 && s == Joined(gs) + OptionalLead(s, most)
  {
    hide IsGroup, Quat, LeadingGroups;
    var lead := LeadSound(s, most);
    var mid := LeadingGroups(s, most);
    if Quat(mid).Some? {
      var g := QuatSound(mid);
      gs := lead + [g];
      JoinedAppend(lead, g);
      var rest := Quat(mid).value;
      assert (if lead == [] then "" else Joined(lead) + ":") + (g + rest)
          == ((if lead == [] then "" else Joined(lead) + ":") + g) + rest;
    } else {
      gs := [];
      assert "" + s == s;
    }
  }

  lemma {:induction false} JoinedAppend(gs: seq<string>, g: string)
    ensures Joined(gs + [g]) == (if gs == [] then "" else Joined(gs) + ":") + g
    decreases |gs|
  {
    if gs == [] {
      assert gs + [g] == [g];
    } else if |gs| == 1 {
      assert (gs + [g])[1..] == [g];
    } else {
      JoinedAppend(gs[1..], g);
      assert (gs + [g])[1..] == gs[1..] + [g];
    }
  }

  // ---- The alternatives with "::" ----

  lemma CompressedSound(s: string, after: nat) returns (before: seq<string>, behind: seq<string>)
    requires after <= 6 && Compressed(s, after).Some?
    ensures AreGroups(before) && AreGroups(behind) && |before| <= 7 - after && |behind| == after
    ensures s == Joined(before) + ("::" + (Joined(behind) + Compressed(s, after).value))
  {
    hide IsGroup, Groups, OptionalLead;
    before := OptionalLeadSound(s, 6 - after);
    var lead := OptionalLead(s, 6 - after);
    LitSound(lead, "::");
    var rest := Lit(lead, "::").value;
    if after == 0 {
      behind := [];
      assert "" + rest == rest;
    } else {
      behind := GroupsSound(rest, after - 1);
    }
  }

  /** Alternatives that want more groups behind "::" than there are fail; the right one reads everything. */
  lemma CompressedReads(before: seq<string>, behind: seq<string>, after: nat)
    requires AreGroups(before) && AreGroups(behind) && |before| + |behind| <= 7
    requires |behind| <= after <= 6
    ensures var r := Compressed(Joined(before) + ("::" + Joined(behind)), after);
      if |behind| == after then r == Some("") else r == None
  {
    hide IsGroup, Groups, OptionalLead;
    var tail := Joined(behind);
    var s := Joined(before) + ("::" + tail);
    assert tail + "" == tail;
    if |behind| == after {
      LeadExact(before, tail, 6 - after);
      LitReads("::", tail);
      if after > 0 {
        GroupsRead(behind, "");
      }
    } else {
      CompressedTooMany(before, behind, after);
    }
  }

  lemma CompressedTooMany(before: seq<string>, behind: seq<string>, after: nat)
    requires AreGroups(before) && AreGroups(behind) && |behind| < after <= 6
    ensures Compressed(Joined(before) + ("::" + Joined(behind)), after) == None
  {
    hide IsGroup, Groups, LeadingGroups, Joined, OptionalLead, Lit, AreGroups;
    if |before| <= 7 - after {
      TooFewBehind(before, behind, after);
    } else {
      LeadTooLong(before, Joined(behind), 6 - after);
    }
  }

  lemma TooFewBehind(before: seq<string>, behind: seq<string>, after: nat)
    requires AreGroups(before) && AreGroups(behind) && |behind| < after <= 6 && |before| <= 7 - after
    ensures Compressed(Joined(before) + ("::" + Joined(behind)), after) == None
  {
    hide IsGroup, Groups, LeadingGroups, Joined, OptionalLead, Lit, AreGroups;
    var tail := Joined(behind);
    assert tail + "" == tail;
    LeadExact(before, tail, 6 - after);
    LitReads("::", tail);
    GroupsTooMany(behind, "", after - 1);
  }

  /** Too many groups in front: the lead stops in front of a single colon. */
  lemma LeadTooLong(gs: seq<string>, tail: string, most: nat)
    requires AreGroups(gs) && |gs| > most + 1
    ensures Lit(OptionalLead(Joined(gs) + ("::" + tail), most), "::") == None
  {
    hide IsGroup, Quat, LeadingGroups, StopsGroup;
    LeadReads(gs, tail, most);
    var left := gs[most..];
    var rest := "::" + tail;
    var more := Joined(left[1..]) + rest;
    JoinedTail(left, rest);
    ColonStops(more);
    QuatReads(left[0], ":" + more);
    SingleColon(left[1..], rest);
  }

  lemma {:induction false} FirstCompressedReads(before: seq<string>, behind: seq<string>, after: nat)
    requires AreGroups(before) && AreGroups(behind) && |before| + |behind| <= 7 && |behind| <= after <= 6
    ensures FirstCompressed(Joined(before) + ("::" + Joined(behind)), after) == Some("")
    decreases after
  {
    hide Compressed, AreGroups;
    CompressedReads(before, behind, after);
    if |behind| < after {
      FirstCompressedReads(before, behind, after - 1);
    }
  }

  lemma {:induction false} FirstCompressedSound(s: string, after: nat)
    requires after <= 6 && FirstCompressed(s, after) == Some("")
    ensures FormTwo(s)
    decreases after
  {
    hide Compressed, FormTwo;
    if Compressed(s, after).Some? {
      var before, behind := CompressedSound(s, after);
      assert Joined(behind) + "" == Joined(behind);
      FormTwoIntro(s, before, behind);
    } else {
      FirstCompressedSound(s, after - 1);
    }
  }

  lemma FormTwoIntro(s: string, before: seq<string>, after: seq<string>)
    requires IsFormTwo(s, before, after)
    ensures FormTwo(s)
  {
  }

  // ---- The whole rule ----

  lemma FormOneAccepted(gs: seq<string>)
    requires AreGroups(gs) && |gs| == 8
    ensures Accepts(Joined(gs))
  {
    hide Groups, AreGroups, FirstCompressed, AllBehind;
    assert Joined(gs) + "" == Joined(gs);
    GroupsRead(gs, "");
  }

  lemma FormTwoNotFull(before: seq<string>, after: seq<string>)
    requires AreGroups(before) && |before| <= 7
    ensures Groups(Joined(before) + ("::" + Joined(after)), 7) == None
  {
    hide IsGroup, Groups;
    ColonStops(Joined(after));
    GroupsTooMany(before, "::" + Joined(after), 7);
  }

  lemma FormTwoAccepted(before: seq<string>, after: seq<string>)
    requires AreGroups(before) && AreGroups(after) && |before| + |after| <= 7
    ensures Accepts(Joined(before) + ("::" + Joined(after)))
  {
    hide Groups, AreGroups, FirstCompressed;
    var s := Joined(before) + ("::" + Joined(after));
    FormTwoNotFull(before, after);
    if |after| == 7 {
      assert s == "::" + Joined(after);
      LitReads("::", Joined(after));
      assert Joined(after) + "" == Joined(after);
      GroupsRead(after, "");
    } else {
      AllBehindFails(before, after);
      FirstCompressedReads(before, after, 6);
    }
  }

  lemma AllBehindFails(before: seq<string>, after: seq<string>)
    requires AreGroups(before) && AreGroups(after) && |after| < 7
    ensures AllBehind(Joined(before) + ("::" + Joined(after))) == None
  {
    hide Groups;
    var s := Joined(before) + ("::" + Joined(after));
    if before == [] {
      assert s == "::" + Joined(after);
      LitReads("::", Joined(after));
      assert Joined(after) + "" == Joined(after);
      GroupsTooMany(after, "", 6);
    } else {
      assert s[0] == before[0][0];
    }
  }

  lemma AcceptedHasForm(s: string)
    ensures Accepts(s) ==> FormOne(s) || FormTwo(s)
  {
    hide Groups, AreGroups, FirstCompressed, FormTwo;
    if !Accepts(s) {
      return;
    }
    if Groups(s, 7).Some? {
      var gs := GroupsSound(s, 7);
      assert Joined(gs) + "" == Joined(gs);
    } else if AllBehind(s).Some? {
      LitSound(s, "::");
      var rest := Lit(s, "::").value;
      var gs := GroupsSound(rest, 6);
      assert Joined(gs) + "" == Joined(gs);
      assert s == Joined([]) + ("::" + Joined(gs));
      NoGroupsAtAll();
      FormTwoIntro(s, [], gs);
    } else {
      FirstCompressedSound(s, 6);
    }
  }

  lemma NoGroupsAtAll()
    ensures AreGroups([])
  {
  }

  /** The rule accepts exactly the addresses of forms 1 and 2. */
  lemma AcceptsExactly(s: string)
    ensures Accepts(s) <==> FormOne(s) || FormTwo(s)
  {
    hide Accepts, AreGroups;
    if Accepts(s) {
      AcceptedHasForm(s);
    }
    if FormOne(s) {
      var gs :| AreGroups(gs) && |gs| == 8 && Joined(gs) == s;
      FormOneAccepted(gs);
    }
    if FormTwo(s) {
      var before, after :| IsFormTwo(s, before, after);
      FormTwoAccepted(before, after);
    }
  }
}
