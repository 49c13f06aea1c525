/** The in-place re-render (internal/commands/install.go, reRenderInPlace) and the unit
    reconcile behind it (internal/commands/reconcile.go): run twice, the second run
    changes nothing. */
module Rerender {
  import opened Text
  import opened XrayConfig

  datatype User = User(name: string, uuid: string)

  // ---- Users out of a config and back --------------------------------------

  function Resolve(clients: seq<Client>, names: seq<string>): Option<seq<User>> {
    if names == [] then Some([])
    else
      var uuid, rest := Lookup(clients, NormalizeEmail(names[0])), Resolve(clients, names[1..]);
      if uuid.None? || rest.None? then None else Some([User(names[0], uuid.value)] + rest.value)
  }

  /** usersFromCurrentXray: each listed name with the UUID it looks up; a name nobody
      answers to is an error. */
  function UsersOf(clients: seq<Client>): Option<seq<User>> {
    Resolve(clients, EmailNames(clients))
  }

  /** The clients the templates write. */
  function Rendered(users: seq<User>, flow: string): (clients: seq<Client>)
    ensures |clients| == |users|
    ensures forall i :: 0 <= i < |users| ==> clients[i] == Client(users[i].uuid, users[i].name + "@vpn", flow, map[])
  {
    if users == [] then []
    else [Client(users[0].uuid, users[0].name + "@vpn", flow, map[])] + Rendered(users[1..], flow)
  }

  /** A name normalizing leaves alone at its left end and its suffix: what normalizing an
      email always yields. A blank may remain at its right end. */
  predicate Listable(name: string) {
    (name == "" || !IsSpace(name[0])) && !HasSuffix(name, "@vpn")
  }

  lemma {:induction false} StripVpnShape(email: string)
    requires email == "" || !IsSpace(email[0])
    ensures Listable(StripVpn(email))
  {
    if !HasSuffix(email, "@vpn") {
    } else {
      StripVpnShape(email[..|email| - 4]);
    }
  }

  lemma NormalListable(email: string)
    ensures Listable(NormalizeEmail(email))
  {
    TrimShape(email);
    StripVpnShape(TrimSpace(email));
  }

  /** Writing a listed name and reading it back gives the name. */
  lemma RenderedName(name: string)
    requires Listable(name)
    ensures NormalizeEmail(name + "@vpn") == name
  {
    var email := name + "@vpn";
    TrimVisible(email);
    assert email[|name|..] == "@vpn" && email[..|name|] == name;
  }

  lemma {:induction false} ResolveNames(clients: seq<Client>, names: seq<string>)
    requires Resolve(clients, names).Some?
    ensures var us := Resolve(clients, names).value;
            && |us| == |names|
            && forall i :: 0 <= i < |us| ==>
                 us[i].name == names[i] && Lookup(clients, NormalizeEmail(names[i])) == Some(us[i].uuid)
  {
    if names == [] {
    } else {
      ResolveNames(clients, names[1..]);
    }
  }

  /** The names survive a render, in order. */
  lemma RenderedNames(clients: seq<Client>, flow: string)
    requires UsersOf(clients).Some?
    ensures EmailNames(Rendered(UsersOf(clients).value, flow)) == EmailNames(clients)
  {
    var names, users := EmailNames(clients), UsersOf(clients).value;
    ResolveNames(clients, names);
    forall i | 0 <= i < |names| ensures NormalizeEmail(Rendered(users, flow)[i].email) == names[i] {
      NormalListable(clients[i].email);
      RenderedName(names[i]);
    }
  }

  /** First client whose name reads as the target. */
  function FirstAt(names: seq<string>, target: string): (i: Option<nat>)
    ensures i.Some? ==> i.value < |names| && names[i.value] == target
  {
    if names == [] then None
    else if names[0] == target then Some(0)
    else match FirstAt(names[1..], target) case None => None case Some(k) => Some(k + 1)
  }

  lemma {:induction false} LookupAt(clients: seq<Client>, target: string)
    ensures var i := FirstAt(EmailNames(clients), target);
            Lookup(clients, target) == match i case None => None case Some(k) => Some(clients[k].id)
  {
    if clients == [] {
    } else {
      LookupAt(clients[1..], target);
      assert EmailNames(clients)[1..] == EmailNames(clients[1..]);
    }
  }

  /** The user whose UUID user i's name looks up. */
  function Source(names: seq<string>, i: nat): (k: nat)
    requires i < |names|
    ensures k < |names|
  {
    match FirstAt(names, NormalizeEmail(names[i])) case None => i case Some(k) => k
  }

  /** Looking up the name of every user's source again gives the same UUID. */
  ghost predicate Settled(clients: seq<Client>) {
    var names := EmailNames(clients);
    forall i :: 0 <= i < |names| ==> clients[Source(names, Source(names, i))].id == clients[Source(names, i)].id
  }

  /** With every name found, user i of a config has its source's UUID. */
  lemma ReadUser(clients: seq<Client>, i: nat)
    requires UsersOf(clients).Some? && i < |clients|
    ensures |UsersOf(clients).value| == |clients|
    ensures UsersOf(clients).value[i] == User(EmailNames(clients)[i], clients[Source(EmailNames(clients), i)].id)
    ensures FirstAt(EmailNames(clients), NormalizeEmail(EmailNames(clients)[i])).Some?
  {
    var names := EmailNames(clients);
    ResolveNames(clients, names);
    LookupAt(clients, NormalizeEmail(names[i]));
  }

  lemma {:induction false} ResolveAll(clients: seq<Client>, names: seq<string>)
    requires forall i :: 0 <= i < |names| ==> Lookup(clients, NormalizeEmail(names[i])).Some?
    ensures Resolve(clients, names).Some?
  {
    if names == [] {
    } else {
      assert Lookup(clients, NormalizeEmail(names[0])).Some?;
      forall i | 0 <= i < |names[1..]| ensures Lookup(clients, NormalizeEmail(names[1..][i])).Some? {
        assert names[1..][i] == names[i + 1];
      }
      ResolveAll(clients, names[1..]);
    }
  }

  lemma RenderedFound(clients: seq<Client>, flow: string)
    requires UsersOf(clients).Some?
    ensures UsersOf(Rendered(UsersOf(clients).value, flow)).Some?
  {
    var names := EmailNames(clients);
    var again := Rendered(UsersOf(clients).value, flow);
    RenderedNames(clients, flow);
    forall i | 0 <= i < |names| ensures Lookup(again, NormalizeEmail(names[i])).Some? {
      ReadUser(clients, i);
      LookupAt(again, NormalizeEmail(names[i]));
    }
    ResolveAll(again, names);
  }

  /** User i read back from a render has its source's source's UUID. */
  lemma ReadAgain(clients: seq<Client>, flow: string, i: nat)
    requires UsersOf(clients).Some? && i < |clients|
    ensures var again, names := Rendered(UsersOf(clients).value, flow), EmailNames(clients);
            && UsersOf(again).Some? && |UsersOf(again).value| == |clients|
            && UsersOf(again).value[i] == User(names[i], clients[Source(names, Source(names, i))].id)
  {
    var again, names := Rendered(UsersOf(clients).value, flow), EmailNames(clients);
    RenderedFound(clients, flow);
    RenderedNames(clients, flow);
    ReadUser(clients, i);
    ReadUser(again, i);
    ReadUser(clients, Source(names, i));
  }

  /** Reading the users out of a rendered config succeeds, gives the same names in order,
      and gives the same users exactly when every lookup is settled. */
  lemma RenderFixpoint(clients: seq<Client>, flow: string)
    requires UsersOf(clients).Some?
    ensures var again := Rendered(UsersOf(clients).value, flow);
            && UsersOf(again).Some? && EmailNames(again) == EmailNames(clients)
            && (UsersOf(again) == UsersOf(clients) <==> Settled(clients))
  {
    RenderedFound(clients, flow);
    RenderedNames(clients, flow);
    var names, users := EmailNames(clients), UsersOf(clients).value;
    var more := UsersOf(Rendered(users, flow)).value;
    ResolveNames(clients, names);
    ResolveNames(Rendered(users, flow), names);
    forall i | 0 <= i < |names|
      ensures more[i] == users[i] <==> clients[Source(names, Source(names, i))].id == clients[Source(names, i)].id
    {
      ReadUser(clients, i);
      ReadAgain(clients, flow, i);
    }
    Pointwise(clients, users, more);
  }

  lemma Pointwise(clients: seq<Client>, users: seq<User>, more: seq<User>)
    requires |users| == |more| == |clients|
    requires var names := EmailNames(clients);
             forall i :: 0 <= i < |names| ==>
               (more[i] == users[i] <==> clients[Source(names, Source(names, i))].id == clients[Source(names, i)].id)
    ensures more == users <==> Settled(clients)
  {
    var names := EmailNames(clients);
    if more == users {
      forall i | 0 <= i < |names| ensures clients[Source(names, Source(names, i))].id == clients[Source(names, i)].id {
        assert more[i] == users[i];
      }
    }
  }

  lemma {:induction false} FirstAtSelf(names: seq<string>, i: nat)
    requires i < |names|
    ensures FirstAt(names, names[i]).Some?
  {
    if i == 0 {
    } else {
      FirstAtSelf(names[1..], i - 1);
    }
  }

  /** Names without a trailing blank, such as every valid name, are always settled. */
  lemma NormalNamesSettled(clients: seq<Client>)
    requires forall i :: 0 <= i < |clients| ==> NormalizeEmail(EmailNames(clients)[i]) == EmailNames(clients)[i]
    ensures Settled(clients)
  {
    var names := EmailNames(clients);
    forall i | 0 <= i < |names| ensures Source(names, Source(names, i)) == Source(names, i) {
      FirstAtSelf(names, i);
      assert names[Source(names, i)] == names[i];
    }
  }

  /** A second render changes the file when names differ only in blanks before the suffix. */
  lemma BlankNamesUnsettled(clients: seq<Client>)
    requires clients == [Client("1", "x @vpn @vpn", "", map[]), Client("2", "x @vpn", "", map[]),
                         Client("3", "x", "", map[])]
    ensures !Settled(clients)
  {
    var names := EmailNames(clients);
    BlankNames();
    assert names == ["x @vpn ", "x ", "x"];
    BlankSources(names);
    assert clients[Source(names, 0)].id == "2" && clients[Source(names, Source(names, 0))].id == "3";
  }

  lemma {:induction false} FirstAtIs(names: seq<string>, target: string, k: nat)
    requires k < |names| && names[k] == target && forall j :: 0 <= j < k ==> names[j] != target
    ensures FirstAt(names, target) == Some(k)
  {
    if k == 0 {
    } else {
      assert names[0] != target;
      FirstAtIs(names[1..], target, k - 1);
    }
  }

  lemma BlankSources(names: seq<string>)
    requires names == ["x @vpn ", "x ", "x"]
    ensures Source(names, 0) == 1 && Source(names, 1) == 2
  {
    BlankNames();
    assert |names[0]| == 7 && |names[1]| == 2 && |names[2]| == 1;
    FirstAtIs(names, "x ", 1);
    FirstAtIs(names, "x", 2);
  }

  lemma BlankNames()
    ensures NormalizeEmail("x @vpn @vpn") == "x @vpn " && NormalizeEmail("x @vpn") == "x " && NormalizeEmail("x") == "x"
    ensures NormalizeEmail("x @vpn ") == "x " && NormalizeEmail("x ") == "x"
  {
    TrimVisible("x @vpn @vpn");
    TrimVisible("x @vpn");
    TrimVisible("x");
    assert "x @vpn @vpn"[..7] == "x @vpn " && "x @vpn @vpn"[7..] == "@vpn";
    assert "x @vpn"[..2] == "x " && "x @vpn"[2..] == "@vpn";
    assert "x @vpn "[..6] == "x @vpn" && "x "[..1] == "x";
    assert "x @vpn "[3..] == "vpn ";
  }
}
