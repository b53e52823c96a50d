/** Which etcd member is a Machine's: what the matching of names means, said without it. */
module Hosts {
  import opened Common
  import opened Machines

  /** What stands before the first dot of a name, or all of it. */
  predicate FirstLabel(head: string, name: string) {
    '.' !in head && (name == head || (|head| < |name| && name[..|head|] == head && name[|head|] == '.'))
  }

  /** Two names of one host: equal first labels, but for case. */
  ghost predicate SameHost(a: string, b: string) {
    exists x, y :: FirstLabel(x, a) && FirstLabel(y, b) && EqualFold(x, y)
  }

  lemma FirstLabelExact(head: string, name: string)
    ensures FirstLabel(head, name) <==> head == Cut(name, '.').before
  {
    var i := IndexOf(name, '.');
    if FirstLabel(head, name) {
      assert forall j :: 0 <= j < |head| ==> name[j] == head[j] && head[j] in head;
      assert i == |head|;
    }
    assert forall j :: 0 <= j < i ==> name[..i][j] == name[j];
  }

  lemma SameHostExact(a: string, b: string)
    ensures SameHost(a, b) <==> HostKey(a) == HostKey(b)
  {
    var x, y := Cut(a, '.').before, Cut(b, '.').before;
    FirstLabelExact(x, a);
    FirstLabelExact(y, b);
    LowerFolds(x, y);
    if x', y' :| FirstLabel(x', a) && FirstLabel(y', b) && EqualFold(x', y') {
      FirstLabelExact(x', a);
      FirstLabelExact(y', b);
    }
  }

  /** The node's name: the first host name among the addresses, else the node reference. */
  ghost predicate NodeNamed(m: Machine, name: string) {
    if exists i :: 0 <= i < |m.addresses| && m.addresses[i].kind == HostName
    then exists i :: FirstHostAt(m.addresses, i) && m.addresses[i].address == name
    else name == m.nodeRef
  }

  predicate FirstHostAt(addresses: seq<Address>, i: int) {
    0 <= i < |addresses| && addresses[i].kind == HostName && forall j :: 0 <= j < i ==> addresses[j].kind != HostName
  }

  /** The names a Machine's host may go by. */
  ghost predicate KnownAs(m: Machine, name: string) {
    name != "" && (NodeNamed(m, name) || name == m.infrastructure.name || name == m.name)
  }

  /** The member with this host name is the Machine's. */
  ghost predicate HostOf(m: Machine, hostname: string) {
    exists name :: KnownAs(m, name) && SameHost(name, hostname)
  }

  lemma {:induction false} FirstHostNameExact(addresses: seq<Address>, fallback: string)
    ensures (exists i :: FirstHostAt(addresses, i)) <==> exists i :: 0 <= i < |addresses| && addresses[i].kind == HostName
    ensures forall i :: FirstHostAt(addresses, i) ==> FirstHostName(addresses, fallback) == addresses[i].address
    ensures !(exists i :: FirstHostAt(addresses, i)) ==> FirstHostName(addresses, fallback) == fallback
    decreases |addresses|
  {
    if addresses != [] {
      if addresses[0].kind == HostName {
        assert FirstHostAt(addresses, 0);
      } else {
        FirstHostNameExact(addresses[1..], fallback);
        assert forall i :: FirstHostAt(addresses, i) ==> FirstHostAt(addresses[1..], i - 1);
        assert forall i :: FirstHostAt(addresses[1..], i) ==> FirstHostAt(addresses, i + 1);
        if i :| 0 <= i < |addresses| && addresses[i].kind == HostName {
          assert addresses[1..][i - 1].kind == HostName;
        }
      }
    }
  }

  /** The candidates are the names the host may go by, the node's before the infrastructure
      Machine's before the Machine's own. */
  lemma CandidatesExact(m: Machine)
    ensures forall name :: name in HostnameCandidates(m) <==> KnownAs(m, name)
    ensures exists node :: NodeNamed(m, node) && HostnameCandidates(m) == NonEmpty([node, m.infrastructure.name, m.name])
  {
    FirstHostNameExact(m.addresses, m.nodeRef);
    var node := FirstHostName(m.addresses, m.nodeRef);
    NonEmptyKeeps([node, m.infrastructure.name, m.name]);
    assert NodeNamed(m, node);
  }

  lemma {:induction false} NonEmptyKeeps(names: seq<string>)
    ensures forall name :: name in NonEmpty(names) <==> name != "" && name in names
  {
    if names != [] { NonEmptyKeeps(names[1..]); }
  }

  /** A member is the Machine's exactly if one of its names is the member's, up to domains
      and case. */
  lemma MatchesExactly(m: Machine, hostname: string)
    ensures MatchesMember(HostnameCandidates(m), hostname) <==> HostOf(m, hostname)
  {
    var candidates := HostnameCandidates(m);
    CandidatesExact(m);
    if MatchesMember(candidates, hostname) {
      var i :| 0 <= i < |candidates| && HostKey(candidates[i]) == HostKey(hostname);
      SameHostExact(candidates[i], hostname);
      assert candidates[i] in candidates;
    }
    if name :| KnownAs(m, name) && SameHost(name, hostname) {
      SameHostExact(name, hostname);
      assert name in candidates;
    }
  }

  /** The member found is the first in the response that is the Machine's; none is found
      exactly if none is. */
  lemma FindMemberExact(m: Machine, messages: seq<seq<Member>>)
    ensures var found := FindMember(Some(messages), HostnameCandidates(m));
            if found.Some? then exists i, j :: FirstHostIn(m, messages, i, j) && messages[i][j] == found.value
            else forall i, j :: 0 <= i < |messages| && 0 <= j < |messages[i]| ==> !HostOf(m, messages[i][j].hostname)
    ensures FindMember(None, HostnameCandidates(m)).None?
  {
    FirstInResponse(m, messages);
  }

  /** The Machine's first member of the response is the `j`-th of the `i`-th message. */
  ghost predicate FirstHostIn(m: Machine, messages: seq<seq<Member>>, i: int, j: int) {
    && 0 <= i < |messages| && 0 <= j < |messages[i]| && HostOf(m, messages[i][j].hostname)
    && forall i', j' :: 0 <= i' <= i && 0 <= j' < |messages[i']| && (i' < i || j' < j) ==> !HostOf(m, messages[i'][j'].hostname)
  }

  lemma {:induction false} FirstInResponse(m: Machine, messages: seq<seq<Member>>)
    ensures var found := FirstMatch(Listed(messages), HostnameCandidates(m));
            if found.Some? then exists i, j :: FirstHostIn(m, messages, i, j) && messages[i][j] == found.value
            else forall i, j :: 0 <= i < |messages| && 0 <= j < |messages[i]| ==> !HostOf(m, messages[i][j].hostname)
    decreases |messages|
  {
    if messages != [] {
      var candidates := HostnameCandidates(m);
      FirstMatchAppend(messages[0], Listed(messages[1..]), candidates);
      FirstInMessage(m, messages[0]);
      FirstInResponse(m, messages[1..]);
      var found := FirstMatch(messages[0], candidates);
      if found.Some? {
        var j :| FirstHostAmong(m, messages[0], j) && messages[0][j] == found.value;
        assert FirstHostIn(m, messages, 0, j);
      } else if FirstMatch(Listed(messages[1..]), candidates).Some? {
        var i, j :| FirstHostIn(m, messages[1..], i, j) && messages[1..][i][j] == FirstMatch(Listed(messages[1..]), candidates).value;
        LaterMessage(m, messages, i, j);
        assert messages[i + 1][j] == messages[1..][i][j];
      } else {
        NoMessage(m, messages);
      }
    }
  }

  lemma NoMessage(m: Machine, messages: seq<seq<Member>>)
    requires messages != [] && forall j :: 0 <= j < |messages[0]| ==> !HostOf(m, messages[0][j].hostname)
    requires forall i, j :: 0 <= i < |messages[1..]| && 0 <= j < |messages[1..][i]| ==> !HostOf(m, messages[1..][i][j].hostname)
    ensures forall i, j :: 0 <= i < |messages| && 0 <= j < |messages[i]| ==> !HostOf(m, messages[i][j].hostname)
  {
    forall i, j | 0 <= i < |messages| && 0 <= j < |messages[i]| ensures !HostOf(m, messages[i][j].hostname) {
      if i > 0 { assert messages[1..][i - 1] == messages[i]; }
    }
  }

  lemma LaterMessage(m: Machine, messages: seq<seq<Member>>, i: int, j: int)
    requires messages != [] && FirstHostIn(m, messages[1..], i, j)
    requires forall j' :: 0 <= j' < |messages[0]| ==> !HostOf(m, messages[0][j'].hostname)
    ensures FirstHostIn(m, messages, i + 1, j)
  {
    forall i', j' | 0 <= i' <= i + 1 && 0 <= j' < |messages[i']| && (i' < i + 1 || j' < j)
      ensures !HostOf(m, messages[i'][j'].hostname)
    {
      if i' > 0 { assert messages[1..][i' - 1] == messages[i']; }
    }
  }

  ghost predicate FirstHostAmong(m: Machine, members: seq<Member>, j: int) {
    0 <= j < |members| && HostOf(m, members[j].hostname) && forall j' :: 0 <= j' < j ==> !HostOf(m, members[j'].hostname)
  }

  lemma {:induction false} FirstInMessage(m: Machine, members: seq<Member>)
    ensures var found := FirstMatch(members, HostnameCandidates(m));
            if found.Some? then exists j :: FirstHostAmong(m, members, j) && members[j] == found.value
            else forall j :: 0 <= j < |members| ==> !HostOf(m, members[j].hostname)
    decreases |members|
  {
    if members != [] {
      MatchesExactly(m, members[0].hostname);
      if HostOf(m, members[0].hostname) {
        assert FirstHostAmong(m, members, 0);
      } else {
        FirstInMessage(m, members[1..]);
        var found := FirstMatch(members[1..], HostnameCandidates(m));
        if found.Some? {
          var j :| FirstHostAmong(m, members[1..], j) && members[1..][j] == found.value;
          forall j' | 0 <= j' < j + 1 ensures !HostOf(m, members[j'].hostname) {
            if j' > 0 { assert members[1..][j' - 1] == members[j']; }
          }
          assert FirstHostAmong(m, members, j + 1);
        } else {
          forall j | 0 <= j < |members| ensures !HostOf(m, members[j].hostname) {
            if j > 0 { assert members[1..][j - 1] == members[j]; }
          }
        }
      }
    }
  }

  lemma {:induction false} FirstMatchAppend(a: seq<Member>, b: seq<Member>, candidates: seq<string>)
    ensures FirstMatch(a + b, candidates)
            == if FirstMatch(a, candidates).Some? then FirstMatch(a, candidates) else FirstMatch(b, candidates)
    decreases |a|
  {
    if a == [] {
      assert a + b == b;
    } else {
      assert (a + b)[1..] == a[1..] + b;
      FirstMatchAppend(a[1..], b, candidates);
    }
  }
}
