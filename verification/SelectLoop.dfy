/** The readiness accounting of the select server (testSelectSocket in
    socket/socket.c). The kernel's answers are parameters. */
module SelectLoop {

  datatype Accepted = Connection(cfd: nat) | AcceptError

  /** One return of select. `Ready`: the descriptors it reports, what accept would
      answer, and the descriptors whose read would return 0 or -1. */
  datatype Answer = Interrupted | Failed | Ready(ready: set<nat>, accepted: Accepted, ended: set<nat>)

  /** select reports only descriptors it was asked about; accept returns a descriptor
      above `lfd` that is not in use. */
  predicate Legal(lfd: nat, readfds: set<nat>, a: Answer) {
    a.Ready? ==>
      && a.ready <= readfds
      && (a.accepted.Connection? ==> a.accepted.cfd > lfd && a.accepted.cfd !in readfds)
  }

  predicate Accepts(lfd: nat, a: Answer, fd: nat) {
    a.Ready? && lfd in a.ready && a.accepted == Connection(fd)
  }

  /** The server leaves its loop, or the whole process exits. */
  predicate Stops(lfd: nat, a: Answer) {
    a.Failed? || (a.Ready? && lfd in a.ready && a.accepted.AcceptError?)
  }

  /** The clients to read in this round. */
  function Clients(lfd: nat, a: Answer): set<nat> {
    if a.Ready? && !Stops(lfd, a) then a.ready - {lfd} else {}
  }

  predicate Ends(lfd: nat, a: Answer, fd: nat) {
    fd in Clients(lfd, a) && fd in a.ended
  }

  function Without(fds: set<nat>, ended: set<nat>, clients: set<nat>): set<nat> {
    fds - (ended * clients)
  }

  /** The watched descriptors after a round. */
  function After(lfd: nat, readfds: set<nat>, a: Answer): set<nat> {
    if Stops(lfd, a) || !a.Ready? then readfds
    else Without(if lfd in a.ready then readfds + {a.accepted.cfd} else readfds, a.ended, Clients(lfd, a))
  }

  predicate LegalRun(lfd: nat, readfds: set<nat>, answers: seq<Answer>)
    decreases |answers|
  {
    answers == [] || (Legal(lfd, readfds, answers[0]) && LegalRun(lfd, After(lfd, readfds, answers[0]), answers[1..]))
  }

  function AfterAll(lfd: nat, readfds: set<nat>, answers: seq<Answer>): set<nat>
    decreases |answers|
  {
    if answers == [] then readfds else AfterAll(lfd, After(lfd, readfds, answers[0]), answers[1..])
  }

  ghost predicate NotEndedFrom(lfd: nat, answers: seq<Answer>, k: nat, fd: nat) {
    forall j | k <= j < |answers| :: !Ends(lfd, answers[j], fd)
  }

  ghost predicate AcceptedAndOpen(lfd: nat, answers: seq<Answer>, k: nat, fd: nat) {
    k < |answers| && Accepts(lfd, answers[k], fd) && NotEndedFrom(lfd, answers, k + 1, fd)
  }

  lemma AcceptedEarlier(lfd: nat, answers: seq<Answer>, fd: nat)
    requires answers != []
    ensures (exists k: nat :: AcceptedAndOpen(lfd, answers, k, fd)) <==>
            || (Accepts(lfd, answers[0], fd) && NotEndedFrom(lfd, answers[1..], 0, fd))
            || exists k: nat :: AcceptedAndOpen(lfd, answers[1..], k, fd)
  {
    var rest := answers[1..];
    forall k: nat
      ensures NotEndedFrom(lfd, rest, k, fd) <==> NotEndedFrom(lfd, answers, k + 1, fd)
    {
      assert forall j | k <= j < |rest| :: rest[j] == answers[j + 1];
      assert NotEndedFrom(lfd, rest, k, fd) ==> forall j | k + 1 <= j < |answers| :: answers[j] == rest[j - 1];
    }
    if k: nat :| AcceptedAndOpen(lfd, answers, k, fd) {
      assert k > 0 ==> AcceptedAndOpen(lfd, rest, k - 1, fd);
    }
    if k: nat :| AcceptedAndOpen(lfd, rest, k, fd) {
      assert AcceptedAndOpen(lfd, answers, k + 1, fd);
    }
    if Accepts(lfd, answers[0], fd) && NotEndedFrom(lfd, rest, 0, fd) {
      assert AcceptedAndOpen(lfd, answers, 0, fd);
    }
  }

  /** After any run of rounds exactly these descriptors are watched: those watched at
      the start and not ended since, and those accepted and not ended since. */
  lemma {:induction false} WatchedIffOpen(lfd: nat, readfds: set<nat>, answers: seq<Answer>, fd: nat)
    requires LegalRun(lfd, readfds, answers)
    ensures fd in AfterAll(lfd, readfds, answers) <==>
            || (fd in readfds && NotEndedFrom(lfd, answers, 0, fd))
            || exists k: nat :: AcceptedAndOpen(lfd, answers, k, fd)
    decreases |answers|
  {
    if answers != [] {
      var rest := answers[1..];
      WatchedIffOpen(lfd, After(lfd, readfds, answers[0]), rest, fd);
      AcceptedEarlier(lfd, answers, fd);
      assert NotEndedFrom(lfd, answers, 0, fd) <==> !Ends(lfd, answers[0], fd) && NotEndedFrom(lfd, rest, 0, fd) by {
        assert forall j | 0 <= j < |rest| :: rest[j] == answers[j + 1];
        assert forall j | 0 < j < |answers| :: answers[j] == rest[j - 1];
      }
      assert fd in After(lfd, readfds, answers[0]) <==>
             (fd in readfds && !Ends(lfd, answers[0], fd)) || Accepts(lfd, answers[0], fd);
    }
  }

  // ------------------------------------------------------------------ one round

  function Max(i: nat, j: nat): nat {
    if i < j then j else i
  }

  function From(fds: set<nat>, i: nat): set<nat> {
    set fd | fd in fds && i <= fd
  }

  lemma FromStep(fds: set<nat>, i: nat)
    ensures |From(fds, i)| == |From(fds, i + 1)| + if i in fds then 1 else 0
  {
    if i in fds {
      assert From(fds, i) == From(fds, i + 1) + {i};
    } else {
      assert From(fds, i) == From(fds, i + 1);
    }
  }

  lemma ReadyParts(lfd: nat, a: Answer)
    requires a.Ready? && forall fd | fd in a.ready :: lfd <= fd
    ensures |a.ready| == |From(a.ready, lfd + 1)| + if lfd in a.ready then 1 else 0
    ensures !Stops(lfd, a) ==> Clients(lfd, a) == From(a.ready, lfd + 1)
  {
    assert From(a.ready, lfd) == a.ready;
    FromStep(a.ready, lfd);
  }

  ghost predicate Increasing(xs: seq<nat>) {
    forall i, j | 0 <= i < j < |xs| :: xs[i] < xs[j]
  }

  ghost function Members(xs: seq<nat>): set<nat> {
    set x | x in xs
  }

  lemma {:induction false} AfterOneMore(lfd: nat, readfds: set<nat>, answers: seq<Answer>, a: Answer)
    ensures AfterAll(lfd, readfds, answers + [a]) == After(lfd, AfterAll(lfd, readfds, answers), a)
    decreases |answers|
  {
    if answers != [] {
      assert (answers + [a])[1..] == answers[1..] + [a];
      AfterOneMore(lfd, After(lfd, readfds, answers[0]), answers[1..], a);
    } else {
      assert [a][1..] == [];
    }
  }

  /** In plain sets: the new connection joins, the ready clients that ended leave. */
  lemma AfterInSets(lfd: nat, readfds: set<nat>, a: Answer)
    ensures After(lfd, readfds, a) ==
            if !a.Ready? || (lfd in a.ready && a.accepted == AcceptError) then readfds
            else if lfd in a.ready then readfds + {a.accepted.cfd} - (a.ended * (a.ready - {lfd}))
            else readfds - (a.ended * (a.ready - {lfd}))
  {
  }

  lemma HandledStep(handled: seq<nat>, i: nat, ready: set<nat>, clients: set<nat>)
    requires clients <= ready && Increasing(handled) && Members(handled) == clients - From(ready, i)
    ensures i in clients ==>
            Increasing(handled + [i]) && Members(handled + [i]) == clients - From(ready, i + 1)
    ensures i !in ready ==> Members(handled) == clients - From(ready, i + 1)
  {
    forall k | 0 <= k < |handled|
      ensures handled[k] < i
    {
      assert handled[k] in Members(handled);
    }
    if i in clients {
      assert From(ready, i) == From(ready, i + 1) + {i};
      assert Members(handled + [i]) == Members(handled) + {i};
    } else if i !in ready {
      assert From(ready, i) == From(ready, i + 1);
    }
  }

  /** Dropping one more client, or not, from what is watched. */
  lemma WithoutStep(fds: set<nat>, ended: set<nat>, handled: seq<nat>, i: nat)
    ensures Without(fds, ended, Members(handled + [i])) ==
            if i in ended then Without(fds, ended, Members(handled)) - {i} else Without(fds, ended, Members(handled))
  {
    assert Members(handled + [i]) == Members(handled) + {i};
  }

  class SelectServer {
    const lfd: nat
    var readfds: set<nat>
    var tempfds: set<nat>
    var maxfd: nat
    var nready: int

    /** Every watched descriptor is one that the scan can reach. */
    ghost predicate Valid()
      reads this
    {
      lfd in readfds && forall fd | fd in readfds :: lfd <= fd <= maxfd
    }

    constructor (lfd: nat)
      ensures Valid() && this.lfd == lfd && readfds == {lfd} && maxfd == lfd
    {
      this.lfd := lfd;
      readfds, tempfds, maxfd, nready := {lfd}, {}, lfd, 0;
    }

    /** Lines 336-352: one client is read, and dropped if its read ends it. */
    method ReadClient(sockfd: nat, ends: bool)
      requires Valid() && sockfd != lfd
      modifies this`readfds, this`nready
      ensures Valid() && nready == old(nready) - 1
      ensures readfds == if ends then old(readfds) - {sockfd} else old(readfds)
    {
      if ends {
        readfds := readfds - {sockfd};
      }
      nready := nready - 1;
    }

    /** Lines 328-356: reads every ready client; `handled` lists them, in order. */
    method Scan(ended: set<nat>) returns (ghost handled: seq<nat>)
      requires Valid() && tempfds <= readfds
      requires nready == |From(tempfds, lfd + 1)|
      modifies this`readfds, this`nready
      ensures Valid() && nready == 0
      ensures Increasing(handled) && Members(handled) == From(tempfds, lfd + 1)
      ensures readfds == Without(old(readfds), ended, From(tempfds, lfd + 1))
    {
      handled := [];
      ghost var clients := From(tempfds, lfd + 1);
      assert From(tempfds, maxfd + 1) == {};
      for i := lfd + 1 to maxfd + 1
        invariant Valid() && nready == |From(tempfds, i)|
        invariant Increasing(handled) && Members(handled) == clients - From(tempfds, i)
        invariant readfds == Without(old(readfds), ended, Members(handled))
      {
        FromStep(tempfds, i);
        HandledStep(handled, i, tempfds, clients);
        if i in tempfds {
          WithoutStep(old(readfds), ended, handled, i);
          handled := handled + [i];
          ReadClient(i, i in ended);
          if nready == 0 {
            assert From(tempfds, i + 1) == {};
            break;
          }
        }
      }
      assert Members(handled) == clients;
    }

    /** Lines 318-321: watches a new connection. */
    method Watch(cfd: nat)
      requires Valid() && lfd < cfd
      modifies this`readfds, this`maxfd
      ensures Valid() && readfds == old(readfds) + {cfd} && maxfd == Max(old(maxfd), cfd)
    {
      readfds := readfds + {cfd};
      if maxfd < cfd {
        maxfd := cfd;
      }
    }

    /** Lines 300-356: one turn of the loop. */
    method Round(a: Answer) returns (goesOn: bool, ghost handled: seq<nat>)
      requires Valid() && Legal(lfd, readfds, a)
      modifies this
      ensures Valid() && readfds == After(lfd, old(readfds), a)
      ensures maxfd == if a.Ready? && lfd in a.ready && a.accepted.Connection?
                       then Max(old(maxfd), a.accepted.cfd) else old(maxfd)
      ensures goesOn <==> !Stops(lfd, a)
      ensures goesOn <==> a.Interrupted? || (a.Ready? && !(lfd in a.ready && a.accepted.AcceptError?))
      ensures Increasing(handled) && Members(handled) == Clients(lfd, a)
      ensures Members(handled) == if a.Ready? && goesOn then a.ready - {lfd} else {}
      ensures a.Ready? && goesOn ==> nready == 0
      ensures !a.Ready? ==> nready == -1
    {
      handled := [];
      tempfds := readfds;
      if !a.Ready? {
        nready := -1;
        return a.Interrupted?, handled;
      }
      tempfds, nready := a.ready, |a.ready|;
      ReadyParts(lfd, a);
      if lfd in tempfds {
        if a.accepted.AcceptError? {
          return false, handled;
        }
        Watch(a.accepted.cfd);
        nready := nready - 1;
        if nready == 0 {
          assert Clients(lfd, a) == {} && Without(readfds, a.ended, {}) == readfds;
          return true, handled;
        }
      }
      handled := Scan(a.ended);
      return true, handled;
    }

    /** The loop, over the kernel's successive answers. */
    method Serve(answers: seq<Answer>) returns (rounds: nat, ghost log: seq<seq<nat>>)
      requires Valid() && LegalRun(lfd, readfds, answers)
      modifies this
      ensures Valid() && rounds <= |answers|
      ensures readfds == AfterAll(lfd, old(readfds), answers[..rounds])
      ensures forall k | 0 <= k < rounds - 1 :: !Stops(lfd, answers[k])
      ensures rounds < |answers| ==> rounds > 0 && Stops(lfd, answers[rounds - 1])
      ensures |log| == rounds
      ensures forall k | 0 <= k < rounds :: Increasing(log[k]) && Members(log[k]) == Clients(lfd, answers[k])
    {
      rounds, log := 0, [];
      var goesOn := true;
      while goesOn && rounds < |answers|
        invariant Valid() && rounds <= |answers| && |log| == rounds
        invariant LegalRun(lfd, readfds, answers[rounds..])
        invariant readfds == AfterAll(lfd, old(readfds), answers[..rounds])
        invariant forall k | 0 <= k < rounds - 1 :: !Stops(lfd, answers[k])
        invariant if goesOn then rounds > 0 ==> !Stops(lfd, answers[rounds - 1])
                  else rounds > 0 && Stops(lfd, answers[rounds - 1])
        invariant forall k | 0 <= k < rounds :: Increasing(log[k]) && Members(log[k]) == Clients(lfd, answers[k])
        decreases |answers| - rounds
      {
        ghost var handled;
        AfterOneMore(lfd, old(readfds), answers[..rounds], answers[rounds]);
        assert answers[..rounds + 1] == answers[..rounds] + [answers[rounds]];
        assert answers[rounds..][1..] == answers[rounds + 1..];
        goesOn, handled := Round(answers[rounds]);
        log := log + [handled];
        rounds := rounds + 1;
      }
    }
  }
}
