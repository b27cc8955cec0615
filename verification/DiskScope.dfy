/** Which disks a reset or a device wipe may destroy (internal/application/node_destructive_actions.go
    and assessDeviceWipeFacts in action_policy.go). */
module DiskScope {
  import opened Sequences
  import A = Admission
  import Text

  /** diskIdentity. */
  datatype DiskIdentity = DiskIdentity(deviceName: string, model: string, serial: string, kind: string, size: nat,
    busPath: string)

  datatype Disk = Disk(identity: DiskIdentity, systemDisk: bool, readOnly: bool)

  /** What listing the disks of one node answered. */
  datatype DiskReading = ReadFailed | Inventory(disks: seq<Disk>)

  datatype WipeMode = WipeAll | WipeSystemDisk | WipeUserDisks

  datatype Action = Reset(mode: WipeMode, userDisks: seq<string>) | WipeDevice(device: string)

  datatype Block =
    | InventoryUnavailable | SystemDiskUnknown | SystemDiskReadOnly | EmptyDisk | DuplicateDisk | NotAUniqueUserDisk
    | NoUserDisks | NoDevice | IsSystemDisk | IsReadOnly | NotInInventory | NotUnique

  datatype ScopedDisk = ScopedDisk(node: string, disk: Disk)

  function IsSystem(): Disk -> bool { (d: Disk) => d.systemDisk }

  /** A disk that a reset may destroy besides the system disk. */
  function IsWritableUser(): Disk -> bool { (d: Disk) => !d.systemDisk && !d.readOnly }

  function Named(name: string): Disk -> bool { (d: Disk) => d.identity.deviceName == name }

  function NameOf(): Disk -> string { (d: Disk) => d.identity.deviceName }

  function On(node: string): Disk -> ScopedDisk { (d: Disk) => ScopedDisk(node, d) }

  // ---- What may be destroyed on one node -------------------------------------------------------

  /** The disks of this inventory that an action destroys: the system disk, if it does, and the
      named or writable user disks. */
  datatype Selection = Selection(system: Option<Disk>, others: seq<Disk>)

  /** The disks that a list of names picks, each name once and each exactly one disk. */
  function PickAll(users: seq<Disk>, names: seq<string>): Option<seq<Disk>> {
    if names == [] then Some([])
    else
      var last := |names| - 1;
      match PickAll(users, names[..last])
      case None => None
      case Some(before) =>
        if names[last] == "" || names[last] in names[..last] || Count(Named(names[last]), users) != 1 then None
        else Some(before + Filter(Named(names[last]), users))
  }

  function UserSelection(users: seq<Disk>, mode: WipeMode, names: seq<string>): Option<seq<Disk>> {
    if mode.WipeSystemDisk? then Some([]) else if names == [] then Some(users) else PickAll(users, names)
  }

  function ResetSelection(disks: seq<Disk>, mode: WipeMode, names: seq<string>): Option<Selection> {
    var systems, users := Filter(IsSystem(), disks), Filter(IsWritableUser(), disks);
    if |systems| != 1 || (!mode.WipeUserDisks? && systems[0].readOnly) then None
    else
      match UserSelection(users, mode, names)
      case None => None
      case Some(others) =>
        if mode.WipeUserDisks? && others == [] then None
        else Some(Selection(if mode.WipeUserDisks? then None else Some(systems[0]), others))
  }

  function Answers(device: string): Disk -> bool {
    (d: Disk) => A.NormalizeDeviceToken(d.identity.deviceName) == A.NormalizeDeviceToken(device)
  }

  function DeviceSelection(disks: seq<Disk>, device: string): Option<Selection> {
    var matches := Filter(Answers(device), disks);
    if device == "" || |matches| != 1 || matches[0].systemDisk || matches[0].readOnly then None
    else Some(Selection(None, matches))
  }

  function Select(action: Action, disks: seq<Disk>): Option<Selection> {
    match action
    case Reset(mode, names) => ResetSelection(disks, mode, names)
    case WipeDevice(device) => DeviceSelection(disks, device)
  }

  function ScopeOf(node: string, s: Selection): seq<ScopedDisk> {
    (if s.system.Some? then [ScopedDisk(node, s.system.value)] else []) + Map(On(node), s.others)
  }

  function ResetNames(action: Action, s: Selection): seq<string> {
    if action.Reset? then Map(NameOf(), s.others) else []
  }

  // ---- Capturing it ---------------------------------------------------------------------------

  lemma FilterSnoc<T>(p: T -> bool, s: seq<T>, i: nat)
    requires i < |s|
    ensures Filter(p, s[..i + 1]) == Filter(p, s[..i]) + if p(s[i]) then [s[i]] else []
  {
    assert s[..i + 1][..i] == s[..i];
  }

  lemma {:induction false} PickAllPrefix(users: seq<Disk>, names: seq<string>, i: nat)
    requires i <= |names| && PickAll(users, names[..i]).None?
    ensures PickAll(users, names).None?
  {
    if i < |names| {
      assert names[..|names| - 1][..i] == names[..i];
      PickAllPrefix(users, names[..|names| - 1], i);
    } else {
      assert names[..i] == names;
    }
  }

  method CollectNamed(users: seq<Disk>, device: string, selected: seq<Disk>) returns (more: seq<Disk>, matches: nat)
    ensures more == selected + Filter(Named(device), users) && matches == Count(Named(device), users)
  {
    more, matches := selected, 0;
    for j := 0 to |users|
      invariant matches == Count(Named(device), users[..j]) && more == selected + Filter(Named(device), users[..j])
    {
      FilterSnoc(Named(device), users, j);
      if users[j].identity.deviceName == device {
        more := more + [users[j]];
        matches := matches + 1;
      }
    }
    assert users[..|users|] == users;
  }

  /** What one more name does to the pick. */
  lemma PickOneMore(users: seq<Disk>, names: seq<string>, i: nat, selected: seq<Disk>)
    requires i < |names| && PickAll(users, names[..i]) == Some(selected)
    ensures var refused := names[i] == "" || names[i] in names[..i] || Count(Named(names[i]), users) != 1;
      && (refused ==> PickAll(users, names).None?)
      && (!refused ==> PickAll(users, names[..i + 1]) == Some(selected + Filter(Named(names[i]), users)))
    ensures forall n :: n in names[..i + 1] <==> n in names[..i] || n == names[i]
  {
    assert names[..i + 1] == names[..i] + [names[i]] && names[..i + 1][..i] == names[..i];
    if PickAll(users, names[..i + 1]).None? { PickAllPrefix(users, names, i + 1); }
  }

  method PickNamed(users: seq<Disk>, names: seq<string>) returns (picked: Option<seq<Disk>>, block: Block)
    ensures picked == PickAll(users, names)
    ensures picked.Some? <==> Distinct(names) && forall n :: n in names ==> n != "" && Count(Named(n), users) == 1
  {
    PickedIff(users, names);
    var selected: seq<Disk> := [];
    var seen: set<string> := {};
    for i := 0 to |names|
      invariant PickAll(users, names[..i]) == Some(selected)
      invariant forall n :: n in seen <==> n in names[..i]
    {
      PickOneMore(users, names, i, selected);
      if names[i] == "" { return None, EmptyDisk; }
      if names[i] in seen { return None, DuplicateDisk; }
      seen := seen + {names[i]};
      var matches;
      selected, matches := CollectNamed(users, names[i], selected);
      if matches != 1 { return None, NotAUniqueUserDisk; }
    }
    assert names[..|names|] == names;
    return Some(selected), NoUserDisks;
  }

  method Classify(disks: seq<Disk>) returns (systems: seq<Disk>, users: seq<Disk>)
    ensures systems == Filter(IsSystem(), disks) && users == Filter(IsWritableUser(), disks)
  {
    systems, users := [], [];
    for i := 0 to |disks|
      invariant systems == Filter(IsSystem(), disks[..i]) && users == Filter(IsWritableUser(), disks[..i])
    {
      FilterSnoc(IsSystem(), disks, i);
      FilterSnoc(IsWritableUser(), disks, i);
      if disks[i].systemDisk {
        systems := systems + [disks[i]];
      } else if !disks[i].readOnly {
        users := users + [disks[i]];
      }
    }
    assert disks[..|disks|] == disks;
  }

  /** The decisions of captureResetDiskScope. */
  method SelectForReset(disks: seq<Disk>, action: Action) returns (selection: Option<Selection>, block: Block)
    requires action.Reset?
    ensures selection == Select(action, disks)
  {
    block := NoUserDisks;
    var systems, users := Classify(disks);
    if |systems| != 1 { return None, SystemDiskUnknown; }
    if !action.mode.WipeUserDisks? && systems[0].readOnly { return None, SystemDiskReadOnly; }
    var selected: seq<Disk> := [];
    if !action.mode.WipeSystemDisk? {
      if |action.userDisks| == 0 {
        selected := users;
      } else {
        var picked;
        picked, block := PickNamed(users, action.userDisks);
        if picked.None? { return None, block; }
        selected := picked.value;
      }
    }
    if action.mode.WipeUserDisks? && |selected| == 0 { return None, NoUserDisks; }
    return Some(Selection(if action.mode.WipeUserDisks? then None else Some(systems[0]), selected)), block;
  }

  /** destructiveDiskFacts. A nonempty `blocked` refuses the action; what else was captured then
      has no authority. */
  class DiskFacts {
    var blocked: seq<Block>
    var scope: seq<ScopedDisk>
    var resetUserDisks: seq<string>

    constructor ()
      ensures blocked == [] && scope == [] && resetUserDisks == []
    {
      blocked, scope, resetUserDisks := [], [], [];
    }

    method Refuse(block: Block)
      modifies this`blocked
      ensures blocked == old(blocked) + [block]
    {
      blocked := blocked + [block];
    }

    method CaptureResetDiskScope(target: string, disks: seq<Disk>, action: Action)
      requires action.Reset?
      modifies this
      ensures var s := Select(action, disks);
        if s.None? then |blocked| == |old(blocked)| + 1 && scope == old(scope) && resetUserDisks == old(resetUserDisks)
        else blocked == old(blocked) && scope == old(scope) + ScopeOf(target, s.value) &&
             resetUserDisks == old(resetUserDisks) + ResetNames(action, s.value)
    {
      var selection, block := SelectForReset(disks, action);
      if selection.None? {
        Refuse(block);
        return;
      }
      if selection.value.system.Some? {
        scope := scope + [ScopedDisk(target, selection.value.system.value)];
      }
      AppendDisks(target, selection.value.others);
    }

    method AppendDisks(target: string, selected: seq<Disk>)
      modifies this`scope, this`resetUserDisks
      ensures scope == old(scope) + Map(On(target), selected) &&
        resetUserDisks == old(resetUserDisks) + Map(NameOf(), selected)
    {
      for i := 0 to |selected|
        invariant scope == old(scope) + Map(On(target), selected[..i])
        invariant resetUserDisks == old(resetUserDisks) + Map(NameOf(), selected[..i])
      {
        resetUserDisks := resetUserDisks + [selected[i].identity.deviceName];
        scope := scope + [ScopedDisk(target, selected[i])];
      }
      assert selected[..|selected|] == selected;
    }

    method CaptureDeviceWipeScope(target: string, disks: seq<Disk>, action: Action)
      requires action.WipeDevice? && target != ""
      modifies this
      ensures var s := Select(action, disks);
        if s.None? then |blocked| == |old(blocked)| + 1 && scope == old(scope) && resetUserDisks == old(resetUserDisks)
        else blocked == old(blocked) && scope == old(scope) + ScopeOf(target, s.value) &&
             resetUserDisks == old(resetUserDisks) + ResetNames(action, s.value)
    {
      var reason := AssessDeviceWipe(disks, action.device);
      if reason.Some? {
        Refuse(reason.value);
        return;
      }
      var matched := OnlyMatch(disks, action.device);
      if matched.None? {
        // The assessment has found a match, so there is another one.
        Refuse(NotUnique);
        return;
      }
      scope := scope + [ScopedDisk(target, matched.value)];
    }
  }

  /** The only disk that answers to a device name; None when there is none or another one. */
  method OnlyMatch(disks: seq<Disk>, device: string) returns (matched: Option<Disk>)
    ensures var matches := Filter(Answers(device), disks);
      matched == if |matches| == 1 then Some(matches[0]) else None
  {
    var p := Answers(device);
    matched := None;
    for i := 0 to |disks|
      invariant Filter(p, disks[..i]) == if matched.Some? then [matched.value] else []
    {
      FilterSnoc(p, disks, i);
      if !p(disks[i]) { continue; }
      if matched.Some? {
        assert disks == disks[..i + 1] + disks[i + 1..];
        FilterConcat(p, disks[..i + 1], disks[i + 1..]);
        return None;
      }
      matched := Some(disks[i]);
    }
    assert disks[..|disks|] == disks;
  }

  predicate FirstIsUsable(matches: seq<Disk>) {
    matches != [] && !matches[0].systemDisk && !matches[0].readOnly
  }

  /** assessDeviceWipeFacts for a loaded inventory: what is wrong with the first match. */
  method AssessDeviceWipe(disks: seq<Disk>, device: string) returns (reason: Option<Block>)
    ensures reason.None? <==> device != "" && FirstIsUsable(Filter(Answers(device), disks))
    ensures reason.None? <==>
      device != "" &&
      exists i ::
        0 <= i < |disks| && Answers(device)(disks[i]) && !disks[i].systemDisk && !disks[i].readOnly &&
        forall j :: 0 <= j < i ==> !Answers(device)(disks[j])
  {
    if device == "" { return Some(NoDevice); }
    var p := Answers(device);
    for i := 0 to |disks|
      invariant Filter(p, disks[..i]) == [] && forall j :: 0 <= j < i ==> !Answers(device)(disks[j])
    {
      FilterSnoc(p, disks, i);
      assert disks == disks[..i + 1] + disks[i + 1..];
      FilterConcat(p, disks[..i + 1], disks[i + 1..]);
      if !Answers(device)(disks[i]) { continue; }
      assert Filter(p, disks)[0] == disks[i];
      if disks[i].systemDisk { return Some(IsSystemDisk); }
      if disks[i].readOnly { return Some(IsReadOnly); }
      return None;
    }
    assert disks[..|disks|] == disks;
    return Some(NotInInventory);
  }

  // ---- What a selection spares ------------------------------------------------------------------

  lemma {:induction false} PickedFromUsers(users: seq<Disk>, names: seq<string>)
    requires PickAll(users, names).Some?
    ensures var picked := PickAll(users, names).value;
      Map(NameOf(), picked) == names && Distinct(names) && forall d :: d in picked ==> d in users
  {
    if names == [] {
    } else {
      var last := |names| - 1;
      PickedFromUsers(users, names[..last]);
      PickedMore(users, names[..last], names[last]);
      assert names == names[..last] + [names[last]];
      DistinctSnoc(names[..last], names[last]);
    }
  }

  lemma PickedMore(users: seq<Disk>, names: seq<string>, name: string)
    requires Count(Named(name), users) == 1
    ensures forall d :: d in Filter(Named(name), users) ==> d in users
    ensures forall before ::
      Map(NameOf(), before) == names ==> Map(NameOf(), before + Filter(Named(name), users)) == names + [name]
  {
    var more := Filter(Named(name), users);
    FilterMembers(Named(name), users);
    assert more[0] in more;
    forall before | Map(NameOf(), before) == names ensures Map(NameOf(), before + more) == names + [name] {
      assert Map(NameOf(), before + more) == Map(NameOf(), before) + [name];
    }
  }

  /** Disks are picked by name exactly when every name is given once and is the name of one disk. */
  lemma {:induction false} PickedIff(users: seq<Disk>, names: seq<string>)
    ensures PickAll(users, names).Some? <==>
      Distinct(names) && forall n :: n in names ==> n != "" && Count(Named(n), users) == 1
  {
    if names == [] {
    } else {
      var before, last := names[..|names| - 1], names[|names| - 1];
      PickedIff(users, before);
      assert names == before + [last];
      assert forall n :: n in names <==> n in before || n == last;
      DistinctSnoc(before, last);
    }
  }

  /** Besides the system disk of a reset, only writable disks that are not the system disk are
      selected, and all from the given inventory. */
  lemma OnlyWritableUserDisks(action: Action, disks: seq<Disk>)
    requires Select(action, disks).Some?
    ensures forall d :: d in Select(action, disks).value.others ==> d in disks && !d.systemDisk && !d.readOnly
    ensures action.Reset? && action.mode.WipeSystemDisk? ==> Select(action, disks).value.others == []
    ensures action.Reset? && action.mode.WipeUserDisks? ==> Select(action, disks).value.system.None?
    ensures var s := Select(action, disks).value.system;
      s.Some? ==> s.value in disks && s.value.systemDisk && !s.value.readOnly
  {
    FilterMembers(IsWritableUser(), disks);
    FilterMembers(IsSystem(), disks);
    var systems := Filter(IsSystem(), disks);
    if action.Reset? {
      assert systems[0] in systems;
      if !action.mode.WipeSystemDisk? && action.userDisks != [] {
        PickedFromUsers(Filter(IsWritableUser(), disks), action.userDisks);
      }
    } else {
      FilterMembers(Answers(action.device), disks);
    }
  }

  /** The only system disk of an inventory. */
  predicate SystemIs(disks: seq<Disk>, system: Disk) { Filter(IsSystem(), disks) == [system] }

  /** A reset names its user disks by device name. It names the system disk exactly when a
      writable user disk carries the same device name and is wiped by default or by request. */
  lemma SystemDiskNamedIff(disks: seq<Disk>, action: Action, system: Disk)
    requires action.Reset? && Select(action, disks).Some? && SystemIs(disks, system)
    ensures var name := system.identity.deviceName;
      name in ResetNames(action, Select(action, disks).value) <==>
      !action.mode.WipeSystemDisk? && (action.userDisks == [] || name in action.userDisks) &&
      exists d :: d in disks && IsWritableUser()(d) && d.identity.deviceName == name
  {
    var name, users := system.identity.deviceName, Filter(IsWritableUser(), disks);
    var names := ResetNames(action, Select(action, disks).value);
    FilterMembers(IsWritableUser(), disks);
    if !action.mode.WipeSystemDisk? {
      if action.userDisks == [] {
        NamesOf(users, name);
      } else {
        PickedFromUsers(users, action.userDisks);
        NamesOf(Select(action, disks).value.others, name);
      }
    }
  }

  lemma NamesOf(disks: seq<Disk>, name: string)
    ensures name in Map(NameOf(), disks) <==> exists d :: d in disks && d.identity.deviceName == name
  {
  }

  /** With distinct device names the system disk is never named. */
  lemma DistinctNamesSpareSystemDisk(disks: seq<Disk>, action: Action, system: Disk)
    requires action.Reset? && Select(action, disks).Some? && SystemIs(disks, system)
    requires Distinct(Map(NameOf(), disks))
    ensures system.identity.deviceName !in ResetNames(action, Select(action, disks).value)
  {
    SystemDiskNamedIff(disks, action, system);
    FilterMembers(IsSystem(), disks);
    assert system in Filter(IsSystem(), disks);
    forall d | d in disks && IsWritableUser()(d) ensures d.identity.deviceName != system.identity.deviceName {
      var i, j :| 0 <= i < |disks| && 0 <= j < |disks| && disks[i] == d && disks[j] == system;
      assert Map(NameOf(), disks)[i] != Map(NameOf(), disks)[j];
    }
  }

  /** Without them it can be: two disks that both call themselves sda. */
  lemma SharedNameReachesSystemDisk()
    ensures exists disks: seq<Disk>, system: Disk, action: Action ::
      action.Reset? && action.mode.WipeUserDisks? && SystemIs(disks, system) && Select(action, disks).Some? &&
      system.identity.deviceName in ResetNames(action, Select(action, disks).value)
  {
    var system := Disk(DiskIdentity("sda", "", "1", "", 1, ""), true, false);
    var other := Disk(DiskIdentity("sda", "", "2", "", 1, ""), false, false);
    var disks, action := [system, other], Reset(WipeUserDisks, []);
    assert disks[..1] == [system] && [system][..0] == [];
    assert Filter(IsSystem(), [system]) == [system] && Filter(IsWritableUser(), [system]) == [];
    assert SystemIs(disks, system) && Filter(IsWritableUser(), disks) == [other];
    assert Select(action, disks) == Some(Selection(None, [other]));
    assert Map(NameOf(), [other])[0] == "sda";
  }

  // ---- Over the fields --------------------------------------------------------------------------------

  /** Disk i is writable, not the system disk, and alone among these in carrying the name. */
  ghost predicate OnlyUserDisk(disks: seq<Disk>, name: string, i: nat) {
    i < |disks| &&
    forall j :: 0 <= j < |disks| ==>
      (j == i <==> !disks[j].systemDisk && !disks[j].readOnly && disks[j].identity.deviceName == name)
  }

  ghost predicate OnlySystemDisk(disks: seq<Disk>, i: nat) {
    i < |disks| && forall j :: 0 <= j < |disks| ==> (j == i <==> disks[j].systemDisk)
  }

  lemma OneUserDisk(disks: seq<Disk>, name: string)
    ensures Count(Named(name), Filter(IsWritableUser(), disks)) == 1 <==>
      exists i :: 0 <= i && OnlyUserDisk(disks, name, i)
  {
    var p := Both(Named(name), IsWritableUser());
    FilterTwice(Named(name), IsWritableUser(), disks);
    CountedOnce(p, disks);
    if i :| 0 <= i < |disks| && p(disks[i]) && forall j :: 0 <= j < |disks| && j != i ==> !p(disks[j]) {
      assert OnlyUserDisk(disks, name, i);
    }
    if i :| 0 <= i && OnlyUserDisk(disks, name, i) {
      assert p(disks[i]) && forall j :: 0 <= j < |disks| && j != i ==> !p(disks[j]);
    }
  }

  lemma OneSystemDisk(disks: seq<Disk>)
    ensures Count(IsSystem(), disks) == 1 <==> exists i :: 0 <= i && OnlySystemDisk(disks, i)
    ensures forall i :: 0 <= i && OnlySystemDisk(disks, i) ==> Filter(IsSystem(), disks) == [disks[i]]
  {
    var p := IsSystem();
    CountedOnce(p, disks);
    if i :| 0 <= i < |disks| && p(disks[i]) && forall j :: 0 <= j < |disks| && j != i ==> !p(disks[j]) {
      assert OnlySystemDisk(disks, i);
    }
    forall i | 0 <= i && OnlySystemDisk(disks, i) ensures Filter(p, disks) == [disks[i]] {
      OnceFiltered(p, disks, i);
    }
  }

  lemma NamesAllowed(disks: seq<Disk>, names: seq<string>)
    ensures PickAll(Filter(IsWritableUser(), disks), names).Some? <==>
      Distinct(names) && forall n :: n in names ==> n != "" && exists i :: 0 <= i && OnlyUserDisk(disks, n, i)
  {
    var users := Filter(IsWritableUser(), disks);
    PickedIff(users, names);
    forall n | n in names ensures Count(Named(n), users) == 1 <==> exists i :: 0 <= i && OnlyUserDisk(disks, n, i) {
      OneUserDisk(disks, n);
    }
  }

  /** A reset is allowed exactly when the node has one system disk, writable if it is to be wiped, and
      every name that is given is the name of one writable user disk, or, for user disks without names,
      there is one at all. */
  lemma ResetAllowed(disks: seq<Disk>, mode: WipeMode, names: seq<string>)
    ensures Select(Reset(mode, names), disks).Some? <==>
      && (exists i :: 0 <= i && OnlySystemDisk(disks, i) && (mode == WipeUserDisks || !disks[i].readOnly))
      && (mode != WipeSystemDisk && names != [] ==>
            Distinct(names) && forall n :: n in names ==> n != "" && exists i :: 0 <= i && OnlyUserDisk(disks, n, i))
      && (mode == WipeUserDisks && names == [] ==> exists d :: d in disks && !d.systemDisk && !d.readOnly)
  {
    SystemAllowed(disks, mode);
    UsersAllowed(disks, mode, names);
  }

  /** The system disk is the only one, and can be wiped if it is to be. */
  ghost predicate SystemFits(disks: seq<Disk>, mode: WipeMode) {
    var systems := Filter(IsSystem(), disks);
    |systems| == 1 && (mode.WipeUserDisks? || !systems[0].readOnly)
  }

  lemma SystemAllowed(disks: seq<Disk>, mode: WipeMode)
    ensures SystemFits(disks, mode) <==>
      exists i :: 0 <= i && OnlySystemDisk(disks, i) && (mode == WipeUserDisks || !disks[i].readOnly)
  {
    OneSystemDisk(disks);
  }

  /** The user disks are picked, and there are some if only they are to be wiped. */
  ghost predicate UsersFit(disks: seq<Disk>, mode: WipeMode, names: seq<string>) {
    var picked := UserSelection(Filter(IsWritableUser(), disks), mode, names);
    picked.Some? && (mode.WipeUserDisks? ==> picked.value != [])
  }

  lemma UsersAllowed(disks: seq<Disk>, mode: WipeMode, names: seq<string>)
    ensures UsersFit(disks, mode, names) <==>
      && (mode != WipeSystemDisk && names != [] ==>
            Distinct(names) && forall n :: n in names ==> n != "" && exists i :: 0 <= i && OnlyUserDisk(disks, n, i))
      && (mode == WipeUserDisks && names == [] ==> exists d :: d in disks && !d.systemDisk && !d.readOnly)
  {
    var users := Filter(IsWritableUser(), disks);
    if names == [] {
      FilterMembers(IsWritableUser(), disks);
      if users != [] { assert users[0] in users; }
    } else {
      NamesAllowed(disks, names);
      if PickAll(users, names).Some? { PickedFromUsers(users, names); }
    }
  }

  /** And then it wipes the system disk unless it is for user disks, and of the writable user disks the
      named ones, or all without names, or none if it is for the system disk. */
  lemma ResetSelects(disks: seq<Disk>, mode: WipeMode, names: seq<string>)
    requires Select(Reset(mode, names), disks).Some?
    ensures var s := Select(Reset(mode, names), disks).value;
      && (mode == WipeUserDisks <==> s.system == None)
      && (s.system.Some? ==> s.system.value in disks && s.system.value.systemDisk && !s.system.value.readOnly)
      && (forall d :: d in s.others <==>
            mode != WipeSystemDisk && d in disks && !d.systemDisk && !d.readOnly &&
            (names == [] || d.identity.deviceName in names))
  {
    var users := Filter(IsWritableUser(), disks);
    OnlyWritableUserDisks(Reset(mode, names), disks);
    FilterMembers(IsWritableUser(), disks);
    if mode != WipeSystemDisk && names != [] {
      PickedFromUsers(users, names);
      PickedByName(users, names);
    }
  }

  lemma {:induction false} PickedByName(users: seq<Disk>, names: seq<string>)
    requires PickAll(users, names).Some?
    ensures forall d :: d in users && d.identity.deviceName in names ==> d in PickAll(users, names).value
    ensures forall d :: d in PickAll(users, names).value ==> d.identity.deviceName in names
  {
    if names == [] {
    } else {
      var before, last := names[..|names| - 1], names[|names| - 1];
      PickedByName(users, before);
      FilterMembers(Named(last), users);
      assert names == before + [last];
    }
  }

  /** The token that a device is compared by. */
  function Token(device: string): string { Text.TrimPrefix(Text.TrimSpace(device), "/dev/") }

  /** A device wipe is allowed exactly when one disk alone answers to the device, up to white space
      and a leading "/dev/", and it is writable and not the system disk; this disk is wiped. */
  lemma DeviceAllowed(disks: seq<Disk>, device: string)
    ensures Select(WipeDevice(device), disks).Some? <==>
      device != "" &&
      exists i :: 0 <= i < |disks| && !disks[i].systemDisk && !disks[i].readOnly &&
        forall j :: 0 <= j < |disks| ==> (j == i <==> Token(disks[j].identity.deviceName) == Token(device))
    ensures Select(WipeDevice(device), disks).Some? ==>
      forall i :: 0 <= i < |disks| && Token(disks[i].identity.deviceName) == Token(device) ==>
        Select(WipeDevice(device), disks) == Some(Selection(None, [disks[i]]))
  {
    var p := Answers(device);
    CountedOnce(p, disks);
    forall i | 0 <= i < |disks| && p(disks[i]) && forall j :: 0 <= j < |disks| && j != i ==> !p(disks[j])
      ensures Filter(p, disks) == [disks[i]]
    {
      OnceFiltered(p, disks, i);
    }
  }

  /** The scope has exactly the wiped disks, each with its node. */
  lemma ScopeMeans(node: string, s: Selection)
    ensures forall e :: e in ScopeOf(node, s) <==> e.node == node && (s.system == Some(e.disk) || e.disk in s.others)
    ensures |ScopeOf(node, s)| == |s.others| + if s.system.Some? then 1 else 0
  {
    var own, rest := if s.system.Some? then [ScopedDisk(node, s.system.value)] else [], Map(On(node), s.others);
    forall e ensures e in rest <==> e.node == node && e.disk in s.others {
      if e in rest {
        var k :| 0 <= k < |rest| && rest[k] == e;
      }
      if e.node == node && e.disk in s.others {
        var k :| 0 <= k < |s.others| && s.others[k] == e.disk;
        assert rest[k] == e;
      }
    }
    assert ScopeOf(node, s) == own + rest;
  }

  /** A reset names the user disks that it wipes; a device wipe names none. */
  lemma ResetNamesMean(action: Action, s: Selection)
    ensures action.WipeDevice? ==> ResetNames(action, s) == []
    ensures action.Reset? ==>
      |ResetNames(action, s)| == |s.others| &&
      forall i :: 0 <= i < |s.others| ==> ResetNames(action, s)[i] == s.others[i].identity.deviceName
  {
  }
}
