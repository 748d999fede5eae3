// The file system as its clients know it, without sectors, clusters or slots, and the proof that every run
// of disciplined calls of the driver is a run of it.
module Client {
  import opened Disk
  import opened Chains
  import opened Objects
  import opened Directory
  import opened Names
  import opened Paths
  import opened Tree
  import opened Store
  import opened Lookup
  import opened Namespace
  import opened View
  import opened Fat12
  import opened Session
  import opened Listings
  import opened Options

  /** An open file: its path and the position in it. */
  datatype Handle = Handle(path: Path, cursor: nat)

  /** What a client knows: which directories and files there are, and what the open files are. */
  datatype Client = Client(view: View, handles: seq<Option<Handle>>)

  datatype Call =
    | OpenCall(path: CString)
    | CloseCall(fileno: int)
    | ReadCall(fileno: int, count: nat)
    | WriteCall(fileno: int, buf: seq<byte>)
    | SizeCall(fileno: int)
    | MakeDirCall(path: CString)
    | RemoveDirCall(path: CString)
    | RemoveFileCall(path: CString)
    | RenameCall(path: CString, newpath: CString)
    | ListCall(path: CString, count: nat)

  /** The number that a call returns, the bytes that a read delivers, and the items of a listing. */
  datatype Result = Result(code: int, data: seq<byte>, items: seq<Item>)

  /** A call that only returns a number. */
  function Code(n: int): Result { Result(n, [], []) }

  // ---------- what each call does ----------

  predicate BadNumber(a: Client, fileno: int) {
    fileno < 3 || fileno - 3 >= |a.handles| || a.handles[fileno - 3].None?
  }

  predicate AnyFree(a: Client) { exists i :: 0 <= i < |a.handles| && a.handles[i].None? }

  predicate FirstNone(hs: seq<Option<Handle>>, k: int) {
    0 <= k < |hs| && hs[k].None? && forall j :: 0 <= j < k ==> hs[j].Some?
  }

  /** Some open file is at path `ks`. */
  predicate HeldOpen(a: Client, ks: Path) {
    exists i :: 0 <= i < |a.handles| && a.handles[i].Some? && a.handles[i].value.path == ks
  }

  function WithHandle(a: Client, k: nat, h: Option<Handle>): Client
    requires k < |a.handles|
  {
    a.(handles := a.handles[k := h])
  }

  /** Why a path cannot be opened; 0 if it can be. */
  ghost function OpenError(a: Client, ks: Path, refused: bool): int {
    if !AnyFree(a) then -1
    else if !HasParent(a.view, ks) then -9
    else if ks in a.view.dirs then -1
    else if ks !in a.view.files && refused then -1
    else 0
  }

  /** An existing file is opened as it is, a missing one is created empty; the lowest free number is taken. */
  ghost function OpenNext(a: Client, ks: Path, refused: bool, r: Result): Option<Client> {
    if r != Code(r.code) then None
    else if OpenError(a, ks, refused) != 0 then if r.code == OpenError(a, ks, refused) then Some(a) else None
    else if FirstNone(a.handles, r.code - 3) then
      Some(Client(if ks in a.view.files then a.view else WithPath(a.view, ks, false),
                  a.handles[r.code - 3 := Some(Handle(ks, 0))]))
    else None
  }

  ghost function CloseNext(a: Client, fileno: int, r: Result): Option<Client> {
    if BadNumber(a, fileno) then if r == Code(-5) then Some(a) else None
    else if r == Code(0) then Some(WithHandle(a, fileno - 3, None)) else None
  }

  /** The bytes of the file from the cursor on, as many as were asked for or as there are. */
  ghost function ReadNext(a: Client, fileno: int, count: nat, r: Result): Option<Client> {
    if BadNumber(a, fileno) then if r == Code(-5) then Some(a) else None
    else
      var h := a.handles[fileno - 3].value;
      if ReadAt(a.view, h.path, h.cursor, count, r.code, r.data) && r.items == []
      then Some(WithHandle(a, fileno - 3, Some(h.(cursor := h.cursor + r.code)))) else None
  }

  /** The bytes that were written are spliced into the file at the cursor: all of them, unless there is no room. */
  ghost function WriteNext(a: Client, fileno: int, buf: seq<byte>, stopped: bool, r: Result): Option<Client> {
    if r != Code(r.code) then None
    else if BadNumber(a, fileno) then if r.code == -5 then Some(a) else None
    else if r.code != |buf| && !stopped then None
    else if r.code == -1 then Some(a)
    else
      var h := a.handles[fileno - 3].value;
      if h.path in a.view.files && h.cursor <= |a.view.files[h.path]| && 0 <= r.code <= |buf| then
        Some(Client(WithBytes(a.view, h.path, Splice(a.view.files[h.path], h.cursor, buf[..r.code])),
                    a.handles[fileno - 3 := Some(h.(cursor := h.cursor + r.code))]))
      else None
  }

  ghost function SizeNext(a: Client, fileno: int, r: Result): Option<Client> {
    if BadNumber(a, fileno) then if r == Code(0) then Some(a) else None
    else
      var h := a.handles[fileno - 3].value;
      if h.path in a.view.files && r == Code(|a.view.files[h.path]|) then Some(a) else None
  }

  ghost function MakeDirNext(a: Client, ks: Path, refused: bool, r: Result): Option<Client> {
    var code := if !HasParent(a.view, ks) then -9 else if HasPath(a.view, ks) || refused then -1 else 0;
    if r != Code(code) then None
    else Some(if code == 0 then a.(view := WithPath(a.view, ks, true)) else a)
  }

  ghost function RemoveDirNext(a: Client, ks: Path, refused: bool, r: Result): Option<Client> {
    var code := if ks == [] || ks !in a.view.dirs then -9 else if refused then -11 else 0;
    if r != Code(code) || (code == 0 && !NothingUnder(a.view, ks)) then None
    else Some(if code == 0 then a.(view := WithoutPath(a.view, ks)) else a)
  }

  ghost predicate NothingUnder(v: View, ks: Path) { forall x: Path :: ks < x ==> !HasPath(v, x) }

  ghost function RemoveFileNext(a: Client, ks: Path, refused: bool, r: Result): Option<Client> {
    var code := if ks !in a.view.files then -9 else if refused then -11 else 0;
    if r != Code(code) then None
    else Some(if code == 0 then a.(view := WithoutPath(a.view, ks)) else a)
  }

  function Followed(h: Option<Handle>, src: Path, dst: Path): Option<Handle> {
    match h case None => None case Some(x) => Some(x.(path := Follow(src, dst, x.path)))
  }

  function FollowedAll(hs: seq<Option<Handle>>, src: Path, dst: Path): (r: seq<Option<Handle>>)
    ensures |r| == |hs| && forall i :: 0 <= i < |hs| ==> r[i] == Followed(hs[i], src, dst)
  {
    seq(|hs|, i requires 0 <= i < |hs| => Followed(hs[i], src, dst))
  }

  /** Everything at or below the old path moves, and the open files below it stay open. */
  ghost function RenameNext(a: Client, src: Path, dst: Path, refused: bool, r: Result): Option<Client> {
    var code := if RenameError(a.view, src, dst) != 0 then RenameError(a.view, src, dst) else if refused then -1 else 0;
    if r != Code(code) then None
    else Some(if code == 0 then Client(Shifted(a.view, src, dst), FollowedAll(a.handles, src, dst)) else a)
  }

  /** A listing has the children of a directory, each once and with its kind, or a file. */
  ghost function ListNext(a: Client, path: CString, count: nat, r: Result): Option<Client> {
    if r.data == [] && Lists(a.view, path, count, r.code, r.items) then Some(a) else None
  }

  /** What the client knows after `call` returned `r`; nothing if the call cannot return that. The client does not
      see whether the driver has a reason of its own to refuse the call. */
  ghost function Next(a: Client, call: Call, refused: bool, r: Result): Option<Client> {
    match call
    case OpenCall(path) => OpenNext(a, Keys(path), refused, r)
    case CloseCall(fileno) => CloseNext(a, fileno, r)
    case ReadCall(fileno, count) => ReadNext(a, fileno, count, r)
    case WriteCall(fileno, buf) => WriteNext(a, fileno, buf, refused, r)
    case SizeCall(fileno) => SizeNext(a, fileno, r)
    case MakeDirCall(path) => MakeDirNext(a, Keys(path), refused, r)
    case RemoveDirCall(path) => RemoveDirNext(a, Keys(path), refused, r)
    case RemoveFileCall(path) => RemoveFileNext(a, Keys(path), refused, r)
    case RenameCall(path, newpath) => RenameNext(a, Keys(path), Keys(newpath), refused, r)
    case ListCall(path, count) => ListNext(a, path, count, r)
  }

  /** The discipline: no second handle on a file, no removal or renaming of an open file, no directory moved
      below itself, and no new name that starts with the tombstone byte. */
  ghost predicate Allowed(a: Client, call: Call) {
    match call
    case OpenCall(path) => NameOk(path) && !HeldOpen(a, Keys(path))
    case MakeDirCall(path) => NameOk(path)
    case RemoveFileCall(path) => !HeldOpen(a, Keys(path))
    case RenameCall(path, newpath) =>
      NameOk(newpath) && !HeldOpen(a, Keys(path)) && !(Keys(path) in a.view.dirs && Keys(path) <= Keys(newpath))
    case _ => true
  }

  // ---------- how the client relates to the driver ----------

  ghost predicate HandleShown(t: Tree, f: OpenFile, h: Option<Handle>) {
    match h
    case None => !f.used
    case Some(x) => f.used && f.cursor == x.cursor && PathKeys(x.path) && Resolve(t, x.path) == Some(PlaceOf(f))
  }

  ghost predicate HandlesShown(t: Tree, files: seq<OpenFile>, hs: seq<Option<Handle>>) {
    |hs| == |files| && forall i :: 0 <= i < |files| ==> HandleShown(t, files[i], hs[i])
  }

  /** The state of the driver at one moment. */
  datatype Moment = Moment(o: Objs, t: Tree, fat: FatTable, files: seq<OpenFile>)

  ghost function Now(v: Volume): Moment
    reads v
    requires v.Valid()
  {
    Moment(v.o, v.T(), v.Table(), v.files)
  }

  /** At this moment the driver holds what the client knows. */
  ghost predicate Pictures(m: Moment, a: Client) {
    a.view == ViewOf(m.o, m.t) && HandlesShown(m.t, m.files, a.handles)
  }

  ghost predicate CanStop(o: Objs, fat: FatTable, files: seq<OpenFile>, fileno: int) {
    3 <= fileno < 3 + |files| && Stopped(o, fat, files[fileno - 3])
  }

  /** The driver's own reasons to refuse a call between the moments `m` and `m'`: no room for an entry, entries in a
      directory, the spelling that a handle keeps, or no free cluster left for a write. */
  ghost predicate Refused(m: Moment, call: Call, m': Moment) {
    match call
    case OpenCall(path) => NoRoomAt(m.t, m.fat, path)
    case WriteCall(fileno, buf) => CanStop(m'.o, m'.fat, m'.files, fileno)
    case MakeDirCall(path) => NoDirRoomAt(m.t, m.fat, path)
    case RemoveDirCall(path) => HasEntries(m.t, path)
    case RemoveFileCall(path) => Shielded(m.t, m.files, path)
    case RenameCall(path, newpath) => NoRoomAt(m.t, m.fat, newpath)
    case _ => false
  }

  /** The volume is clean and holds what the client knows. */
  ghost predicate Matches(v: Volume, a: Client)
    reads v
  {
    Clean(v) && a.view == Seen(v) && HandlesShown(v.T(), v.files, a.handles)
  }

  lemma SameNumbers(t: Tree, files: seq<OpenFile>, a: Client)
    requires HandlesShown(t, files, a.handles)
    ensures HasUnused(files) <==> AnyFree(a)
    ensures forall k :: 0 <= k < |files| ==> (files[k].used <==> a.handles[k].Some?)
    ensures forall k :: 0 <= k && FirstUnused(files, k) ==> FirstNone(a.handles, k)
  {
    forall k | 0 <= k < |files| ensures files[k].used <==> a.handles[k].Some? {
      assert HandleShown(t, files[k], a.handles[k]);
    }
  }

  /** A path is open for the client exactly when a handle of the driver is on its entry. */
  lemma HeldOpened(v: Volume, a: Client, path: CString)
    requires Matches(v, a)
    ensures Unopened(v, path) <==> !HeldOpen(a, Keys(path))
  {
    hide Keys, Resolve, Clean, PathKeys;
    KeysOk(path);
    CleanHome(v);
    var t := v.T();
    forall i | 0 <= i < |v.files| && v.files[i].used
      ensures a.handles[i].Some?
      ensures a.handles[i].value.path == Keys(path) <==> Resolve(t, Keys(path)) == Some(PlaceOf(v.files[i]))
    {
      assert HandleShown(t, v.files[i], a.handles[i]);
      if Resolve(t, Keys(path)) == Some(PlaceOf(v.files[i])) {
        OneName(t, v.home, a.handles[i].value.path, Keys(path));
      }
    }
    forall i | 0 <= i < |a.handles| && a.handles[i].Some? ensures v.files[i].used {
      assert HandleShown(t, v.files[i], a.handles[i]);
    }
  }

  /** The handles that are not on `path` are shown as before when no other path changes. */
  lemma HandlesKept(t: Tree, t': Tree, files: seq<OpenFile>, hs: seq<Option<Handle>>, path: Path)
    requires HandlesShown(t, files, hs) && PathsBut(t, t', path)
    requires forall i :: 0 <= i < |hs| && hs[i].Some? ==> hs[i].value.path != path
    ensures HandlesShown(t', files, hs)
  {
    hide Resolve, PathKeys;
    forall i | 0 <= i < |files| ensures HandleShown(t', files[i], hs[i]) {
      assert HandleShown(t, files[i], hs[i]);
    }
  }

  /** One handle changes, the paths do not. */
  lemma HandleSet(t: Tree, t': Tree, files: seq<OpenFile>, hs: seq<Option<Handle>>, k: nat, f: OpenFile,
                  h: Option<Handle>)
    requires HandlesShown(t, files, hs) && SamePaths(t, t') && k < |files| && HandleShown(t', f, h)
    ensures HandlesShown(t', files[k := f], hs[k := h])
  {
    hide Resolve, PathKeys;
    var files', hs' := files[k := f], hs[k := h];
    forall i | 0 <= i < |files'| ensures HandleShown(t', files'[i], hs'[i]) {
      if i != k {
        assert HandleShown(t, files[i], hs[i]);
      }
    }
  }

  /** What a handle in use stands for. */
  lemma HandleFacts(v: Volume, a: Client, k: nat)
    requires Matches(v, a) && k < |v.files|
    ensures k < |a.handles| && (v.files[k].used <==> a.handles[k].Some?)
    ensures v.files[k].used ==>
              var h := a.handles[k].value;
              && PathKeys(h.path) && Resolve(v.T(), h.path) == Some(PlaceOf(v.files[k]))
              && h.cursor == v.files[k].cursor
              && Coherent(v.T(), v.files[k]) && h.path in a.view.files
              && a.view.files[h.path] == HandleBytes(v.o, v.files[k])
  {
    assert HandleShown(v.T(), v.files[k], a.handles[k]);
    CleanHandles(v);
    hide Resolve, PathKeys, Clean, Coherent, HandleBytes;
    if v.files[k].used {
      HandleSeen(v.o, v.T(), a.handles[k].value.path, v.files[k]);
    }
  }

  // ---------- the calls ----------

  method PerformOpen(v: Volume, path: CString, ghost a: Client) returns (r: Result, ghost b: Client)
    requires Matches(v, a) && NameOk(path) && !HeldOpen(a, Keys(path))
    modifies v
    ensures Matches(v, b) && v.o.lost == old(v.o.lost)
    ensures OpenNext(a, Keys(path), NoRoomAt(old(v.T()), old(v.Table()), path), r) == Some(b)
  {
    hide Clean, Seen, Unopened, Keys, NameOk, Resolve, HandlesShown, HasUnused, AnyFree, FirstUnused, FirstNone,
      HasParent, PathsBut, OpenedHandle, NoRoomAt, Volume.VolumeOk;
    HeldOpened(v, a, path);
    SameNumbers(v.T(), v.files, a);
    ghost var t0, files0 := v.T(), v.files;
    var fd := StepOpen(v, path);
    r, b := Code(fd), a;
    if fd >= 0 {
      OpenHandles(t0, v.T(), files0, v.files, a, path, fd - 3);
      b := Client(Seen(v), a.handles[fd - 3 := Some(Handle(Keys(path), 0))]);
    }
  }

  lemma OpenHandles(t: Tree, t': Tree, files: seq<OpenFile>, files': seq<OpenFile>, a: Client, path: CString, k: int)
    requires HandlesShown(t, files, a.handles) && PathsBut(t, t', Keys(path))
    requires OpenedHandle(files, files', t', path, k)
    requires !HeldOpen(a, Keys(path))
    ensures 0 <= k < |a.handles| && FirstNone(a.handles, k)
    ensures HandlesShown(t', files', a.handles[k := Some(Handle(Keys(path), 0))])
  {
    hide Resolve, Keys, PathsBut;
    SameNumbers(t, files, a);
    HandlesKept(t, t', files, a.handles, Keys(path));
    KeysOk(path);
    SamePathsSelf(t');
    HandleSet(t', t', files, a.handles, k, files'[k], Some(Handle(Keys(path), 0)));
  }

  method PerformClose(v: Volume, fileno: int, ghost a: Client) returns (r: Result, ghost b: Client)
    requires Matches(v, a)
    modifies v
    ensures Matches(v, b) && v.o.lost == old(v.o.lost)
    ensures CloseNext(a, fileno, r) == Some(b)
  {
    hide Clean, Seen, HandlesShown, Volume.T;
    ghost var t0, files0 := v.T(), v.files;
    SameNumbers(v.T(), v.files, a);
    NumbersMatch(v, a, fileno);
    var n := StepClose(v, fileno);
    r, b := Code(n), a;
    if n >= 0 {
      b := WithHandle(a, fileno - 3, None);
      SamePathsSelf(t0);
      HandleSet(t0, t0, files0, a.handles, fileno - 3, files0[fileno - 3].(used := false), None);
    }
  }

  lemma NumbersMatch(v: Volume, a: Client, fileno: int)
    requires HandlesShown(v.T(), v.files, a.handles)
    ensures v.BadHandle(fileno) <==> BadNumber(a, fileno)
  {
    SameNumbers(v.T(), v.files, a);
  }

  method PerformRead(v: Volume, fileno: int, count: nat, ghost a: Client) returns (r: Result, ghost b: Client)
    requires Matches(v, a)
    modifies v
    ensures Matches(v, b) && v.o.lost == old(v.o.lost)
    ensures ReadNext(a, fileno, count, r) == Some(b)
  {
    hide Clean, Seen, HandlesShown, Volume.T, Resolve, PathKeys, Coherent;
    ghost var t0, files0 := v.T(), v.files;
    NumbersMatch(v, a, fileno);
    if !v.BadHandle(fileno) {
      HandleFacts(v, a, fileno - 3);
    }
    var n, data := StepRead(v, fileno, count);
    r, b := Result(n, data, []), a;
    if !BadNumber(a, fileno) {
      ghost var h, f := a.handles[fileno - 3].value, files0[fileno - 3];
      assert ReadAt(a.view, h.path, h.cursor, count, n, data);
      b := WithHandle(a, fileno - 3, Some(h.(cursor := h.cursor + n)));
      SamePathsSelf(t0);
      HandleSet(t0, t0, files0, a.handles, fileno - 3, f.(cursor := f.cursor + n), Some(h.(cursor := h.cursor + n)));
    }
  }

  /** A write of `n` bytes through handle `k`, as the client sees it. */
  lemma WriteShown(o: Objs, t: Tree, home: Homes, t': Tree, files: seq<OpenFile>, files': seq<OpenFile>, a: Client,
                   k: nat, buf: seq<byte>, n: nat)
    requires WellFormed(t, home, {}) && a.view == ViewOf(o, t) && HandlesShown(t, files, a.handles) && SamePaths(t, t')
    requires k < |files| && files[k].used && Coherent(t, files[k]) && k < |files'| && files' == files[k := files'[k]]
    requires PlaceOf(files'[k]) == PlaceOf(files[k]) && files'[k].used && files'[k].cursor == files[k].cursor + n
    requires n <= |buf| && files[k].cursor <= |HandleBytes(o, files[k])|
    ensures k < |a.handles| && a.handles[k].Some? && a.handles[k].value.path in a.view.files
    ensures var f, h := files[k], a.handles[k].value;
            var bytes := Splice(HandleBytes(o, f), f.cursor, buf[..n]);
            && a.view.files[h.path] == HandleBytes(o, f) && h.cursor == f.cursor
            && Rewrote(a.view, t, PlaceOf(f), EntryIn(t, PlaceOf(f)), bytes) == WithBytes(a.view, h.path, bytes)
            && HandlesShown(t', files', a.handles[k := Some(h.(cursor := h.cursor + n))])
  {
    assert HandleShown(t, files[k], a.handles[k]);
    var f, h := files[k], a.handles[k].value;
    var bytes := Splice(HandleBytes(o, f), f.cursor, buf[..n]);
    hide Resolve, PathKeys, Coherent, HandleBytes, SamePaths, HandlesShown, ViewOf, Rewrote, WithBytes, Splice;
    HandleSeen(o, t, h.path, f);
    RewroteAt(o, t, home, h.path, f, bytes);
    HandleSet(t, t', files, a.handles, k, files'[k], Some(h.(cursor := h.cursor + n)));
  }

  method PerformWrite(v: Volume, fileno: int, buf: seq<byte>, ghost a: Client) returns (r: Result, ghost b: Client)
    requires Matches(v, a)
    modifies v
    ensures Matches(v, b) && v.o.lost == old(v.o.lost)
    ensures WriteNext(a, fileno, buf, CanStop(v.o, v.Table(), v.files, fileno), r) == Some(b)
  {
    hide Clean, HandlesShown, Volume.T, Resolve, PathKeys, Coherent, SamePaths, Rewrote, Splice, ViewOf, HandleBytes,
      WithBytes, Stopped, Volume.VolumeOk, Volume.Table;
    ghost var t0, o0, home0, files0 := v.T(), v.o, v.home, v.files;
    NumbersMatch(v, a, fileno);
    CleanHome(v);
    CleanHandles(v);
    var n := StepWrite(v, fileno, buf);
    r, b := Code(n), a;
    if n < 0 {
      SameHandles(t0, v.T(), files0, a.handles);
    } else {
      WriteShown(o0, t0, home0, v.T(), files0, v.files, a, fileno - 3, buf, n);
      ghost var h := a.handles[fileno - 3].value;
      b := Client(Seen(v), a.handles[fileno - 3 := Some(h.(cursor := h.cursor + n))]);
    }
  }

  lemma SameHandles(t: Tree, t': Tree, files: seq<OpenFile>, hs: seq<Option<Handle>>)
    requires HandlesShown(t, files, hs) && SamePaths(t, t')
    ensures HandlesShown(t', files, hs)
  {
    hide Resolve, PathKeys;
    forall i | 0 <= i < |files| ensures HandleShown(t', files[i], hs[i]) {
      assert HandleShown(t, files[i], hs[i]);
    }
  }

  method PerformSize(v: Volume, fileno: int, ghost a: Client) returns (r: Result)
    requires Matches(v, a)
    ensures SizeNext(a, fileno, r) == Some(a)
  {
    hide Clean, Seen, HandlesShown, Volume.T, Resolve, PathKeys, Coherent;
    NumbersMatch(v, a, fileno);
    if !v.BadHandle(fileno) {
      HandleFacts(v, a, fileno - 3);
    }
    var n := StepSize(v, fileno);
    r := Code(n);
  }

  method PerformMakeDir(v: Volume, path: CString, ghost a: Client) returns (r: Result, ghost b: Client)
    requires Matches(v, a) && NameOk(path)
    modifies v
    ensures Matches(v, b) && v.o.lost == old(v.o.lost)
    ensures MakeDirNext(a, Keys(path), NoDirRoomAt(old(v.T()), old(v.Table()), path), r) == Some(b)
  {
    hide Clean, Seen, Volume.T, Resolve, PathKeys, Keys, HandlesShown, PathsBut, HasParent, NoDirRoomAt,
      FreshDir, Walk;
    ghost var t0 := v.T();
    HandlesNamed(v, a);
    var n := StepMakeDir(v, path);
    r, b := Code(n), a;
    if n >= 0 {
      b := a.(view := Seen(v));
      HandlesKept(t0, v.T(), v.files, a.handles, Keys(path));
    }
  }

  /** Every open file is a file of the view. */
  lemma HandlesNamed(v: Volume, a: Client)
    requires Matches(v, a)
    ensures forall i :: 0 <= i < |a.handles| && a.handles[i].Some? ==> a.handles[i].value.path in a.view.files
  {
    hide Clean, Seen, Volume.T, Resolve, PathKeys, Coherent;
    forall i | 0 <= i < |a.handles| && a.handles[i].Some? ensures a.handles[i].value.path in a.view.files {
      HandleFacts(v, a, i);
    }
  }

  lemma NotBoth(v: Volume, path: CString)
    ensures !(Keys(path) in Seen(v).dirs && Keys(path) in Seen(v).files)
  {
    ViewCodes(v.o, v.T(), path);
  }

  method PerformRemoveDir(v: Volume, path: CString, ghost a: Client) returns (r: Result, ghost b: Client)
    requires Matches(v, a)
    modifies v
    ensures Matches(v, b) && v.o.lost == old(v.o.lost)
    ensures RemoveDirNext(a, Keys(path), HasEntries(old(v.T()), path), r) == Some(b)
  {
    hide Clean, Seen, Volume.T, Resolve, PathKeys, Keys, HandlesShown, PathsBut, HasPath, HasEntries;
    ghost var t0 := v.T();
    HandlesNamed(v, a);
    NotBoth(v, path);
    var n := StepRemoveDir(v, path);
    r, b := Code(n), a;
    if n >= 0 {
      b := a.(view := Seen(v));
      HandlesKept(t0, v.T(), v.files, a.handles, Keys(path));
    }
  }

  method PerformRemoveFile(v: Volume, path: CString, ghost a: Client) returns (r: Result, ghost b: Client)
    requires Matches(v, a) && !HeldOpen(a, Keys(path))
    modifies v
    ensures Matches(v, b) && v.o.lost == old(v.o.lost)
    ensures RemoveFileNext(a, Keys(path), Shielded(old(v.T()), old(v.files), path), r) == Some(b)
  {
    hide Clean, Seen, Volume.T, Resolve, PathKeys, Keys, HandlesShown, PathsBut, Unopened, Shielded;
    ghost var t0 := v.T();
    HeldOpened(v, a, path);
    var n := StepRemoveFile(v, path);
    r, b := Code(n), a;
    if n >= 0 {
      b := a.(view := Seen(v));
      HandlesKept(t0, v.T(), v.files, a.handles, Keys(path));
    }
  }

  lemma HandlesFollow(t: Tree, t': Tree, files: seq<OpenFile>, files': seq<OpenFile>, hs: seq<Option<Handle>>,
                      oldpath: CString, newpath: CString)
    requires HandlesShown(t, files, hs) && PathsFollow(t, t', Keys(oldpath), Keys(newpath))
    requires |files'| == |files| && forall i :: 0 <= i < |files| ==> files'[i] == Repathed(files[i], oldpath, newpath)
    requires forall i :: 0 <= i < |hs| && hs[i].Some? ==> hs[i].value.path != Keys(oldpath)
    ensures HandlesShown(t', files', FollowedAll(hs, Keys(oldpath), Keys(newpath)))
  {
    hide Resolve, PathKeys, Follow, Keys;
    var hs' := FollowedAll(hs, Keys(oldpath), Keys(newpath));
    forall i | 0 <= i < |files'| ensures HandleShown(t', files'[i], hs'[i]) {
      assert HandleShown(t, files[i], hs[i]);
    }
  }

  method PerformRename(v: Volume, oldpath: CString, newpath: CString, ghost a: Client)
    returns (r: Result, ghost b: Client)
    requires Matches(v, a) && Allowed(a, RenameCall(oldpath, newpath))
    modifies v
    ensures Matches(v, b) && v.o.lost == old(v.o.lost)
    ensures RenameNext(a, Keys(oldpath), Keys(newpath), NoRoomAt(old(v.T()), old(v.Table()), newpath), r) == Some(b)
  {
    hide Clean, Seen, Volume.T, Resolve, PathKeys, Keys, HandlesShown, PathsFollow, Unopened, HasParent, HasPath,
      Shifted, NameOk, RenameError, NoRoomAt;
    ghost var t0, files0 := v.T(), v.files;
    HeldOpened(v, a, oldpath);
    var n := StepRename(v, oldpath, newpath);
    r, b := Code(n), a;
    if n >= 0 {
      b := Client(Seen(v), FollowedAll(a.handles, Keys(oldpath), Keys(newpath)));
      HandlesFollow(t0, v.T(), files0, v.files, a.handles, oldpath, newpath);
    }
  }

  method PerformList(v: Volume, path: CString, count: nat, ghost a: Client) returns (r: Result)
    requires Matches(v, a)
    ensures ListNext(a, path, count, r) == Some(a)
  {
    hide Clean, Seen, HandlesShown, Lists;
    var n, items := StepList(v, path, count);
    r := Result(n, [], items);
  }

  // ---------- runs of calls ----------

  /** Every allowed call of the driver does what the client expects, and loses no cluster. */
  method Perform(v: Volume, call: Call, ghost a: Client) returns (r: Result, ghost b: Client)
    requires Matches(v, a) && Allowed(a, call)
    modifies v
    ensures Matches(v, b) && Next(a, call, Refused(old(Now(v)), call, Now(v)), r) == Some(b)
    ensures v.o.lost == old(v.o.lost)
  {
    hide FirstFree, BadNumber, Matches, Keys, NameOk, HeldOpen, OpenNext, CloseNext, ReadNext, WriteNext, SizeNext,
      MakeDirNext, RemoveDirNext, RemoveFileNext, RenameNext, ListNext;
    match call {
      case OpenCall(path) => r, b := PerformOpen(v, path, a);
      case CloseCall(fileno) => r, b := PerformClose(v, fileno, a);
      case ReadCall(fileno, count) => r, b := PerformRead(v, fileno, count, a);
      case WriteCall(fileno, buf) => r, b := PerformWrite(v, fileno, buf, a);
      case SizeCall(fileno) => r := PerformSize(v, fileno, a); b := a;
      case MakeDirCall(path) => r, b := PerformMakeDir(v, path, a);
      case RemoveDirCall(path) => r, b := PerformRemoveDir(v, path, a);
      case RemoveFileCall(path) => r, b := PerformRemoveFile(v, path, a);
      case RenameCall(path, newpath) => r, b := PerformRename(v, path, newpath, a);
      case ListCall(path, count) => r := PerformList(v, path, count, a); b := a;
    }
  }

  /** A client can tell whether a path names an open file. */
  method CheckUnopened(v: Volume, path: CString) returns (ok: bool)
    requires Clean(v)
    ensures ok <==> Unopened(v, path)
  {
    hide WellFormed, Volume.Sound, TreeOf, Keys, Resolve, Rooted, Coherent;
    var found, e, idx, dir := v.FindEntry(path);
    if !found {
      return true;
    }
    for i := 0 to |v.files|
      invariant forall j :: 0 <= j < i && v.files[j].used ==> PlaceOf(v.files[j]) != (dir, idx)
    {
      if v.files[i].used && PlaceOf(v.files[i]) == (dir, idx) {
        return false;
      }
    }
    ok := true;
  }

  /** A client can tell whether a rename is allowed. */
  method CheckRename(v: Volume, oldpath: CString, newpath: CString) returns (ok: bool)
    requires Clean(v)
    ensures ok <==> MayRename(v, oldpath, newpath)
  {
    hide WellFormed, Volume.Sound, TreeOf, Keys, Resolve, Rooted, Coherent, ViewOf, Unopened;
    var unopened := CheckUnopened(v, oldpath);
    var found, e, idx, dir := v.FindEntry(oldpath);
    ViewCodes(v.o, v.T(), oldpath);
    RootSeen(v.o, v.T());
    if found {
      FoundKind(v, oldpath);
    }
    var directory := Keys(oldpath) == [] || (found && IsDir(e));
    ok := NameOk(newpath) && unopened && !(directory && Keys(oldpath) <= Keys(newpath));
  }

  lemma RootSeen(o: Objs, t: Tree)
    ensures [] in ViewOf(o, t).dirs
  {
    var ks: Path := [];
    assert PathKeys(ks) && Walk(t, ks) == Some(0);
  }

  lemma FoundKind(v: Volume, path: CString)
    requires v.VolumeOk() && Resolve(v.T(), Keys(path)).Some?
    ensures var p := Resolve(v.T(), Keys(path)).value; p.0 in v.T().dirs && EntryIn(v.T(), p) == v.T().dirs[p.0][p.1]
  {
    v.ResolvedFacts(path);
  }

  /** A client can tell whether a call is allowed. */
  method Check(v: Volume, call: Call, ghost a: Client) returns (ok: bool)
    requires Matches(v, a)
    ensures ok <==> Allowed(a, call)
  {
    hide Clean, Unopened, Keys, HeldOpen, HandlesShown, NameOk, Seen;
    match call {
      case OpenCall(path) =>
        HeldOpened(v, a, path);
        ok := CheckUnopened(v, path);
        ok := ok && NameOk(path);
      case MakeDirCall(path) => ok := NameOk(path);
      case RemoveFileCall(path) =>
        HeldOpened(v, a, path);
        ok := CheckUnopened(v, path);
      case RenameCall(path, newpath) =>
        HeldOpened(v, a, path);
        ok := CheckRename(v, path, newpath);
      case _ => ok := true;
    }
  }

  /** What the client knows after a run of calls with these results, when `trace` has the moments before, between
      and after the calls. A call that is not allowed is left out and has no result; nothing if the run cannot go
      that way, or if the driver does not hold at some moment what the client knows. */
  ghost function Replay(a: Client, calls: seq<Call>, trace: seq<Moment>, results: seq<Option<Result>>): Option<Client>
    requires |results| == |calls| && |trace| == |calls| + 1
  {
    var n := |calls|;
    if n == 0 then if Pictures(trace[0], a) then Some(a) else None else
    match Replay(a, calls[..n - 1], trace[..n], results[..n - 1])
    case None => None
    case Some(b) => Replayed(b, calls[n - 1], trace[n - 1], trace[n], results[n - 1])
  }

  /** One call of a run. */
  ghost function Replayed(b: Client, call: Call, m: Moment, m': Moment, r: Option<Result>): Option<Client> {
    if !Allowed(b, call) then if r.None? && m' == m then Some(b) else None
    else if r.None? then None
    else
      match Next(b, call, Refused(m, call, m'), r.value)
      case None => None
      case Some(c) => if Pictures(m', c) && m'.o.lost == m.o.lost then Some(c) else None
  }

  /** The call can change the file at `ks`. */
  ghost predicate Touches(a: Client, call: Call, ks: Path) {
    match call
    case WriteCall(fileno, buf) => !BadNumber(a, fileno) && a.handles[fileno - 3].value.path == ks
    case RemoveDirCall(path) => Keys(path) == ks
    case RemoveFileCall(path) => Keys(path) == ks
    case RenameCall(path, newpath) => Keys(path) <= ks || Keys(newpath) <= ks
    case _ => false
  }

  lemma StepKeepsFile(a: Client, call: Call, refused: bool, r: Result, ks: Path)
    requires Next(a, call, refused, r).Some? && PathKeys(ks) && ks in a.view.files && !Touches(a, call, ks)
    ensures var b := Next(a, call, refused, r).value; ks in b.view.files && b.view.files[ks] == a.view.files[ks]
  {
    hide Keys, HasParent, HasPath, NothingUnder, AnyFree, RenameError, Followed, OpenError, Lists;
  }

  /** No call of the run touches the file at `ks`. */
  ghost predicate Spared(a: Client, calls: seq<Call>, trace: seq<Moment>, results: seq<Option<Result>>, ks: Path)
    requires |results| == |calls| && |trace| == |calls| + 1
  {
    var n := |calls|;
    n > 0 ==>
    && Spared(a, calls[..n - 1], trace[..n], results[..n - 1], ks)
    && (results[n - 1].Some? && Replay(a, calls[..n - 1], trace[..n], results[..n - 1]).Some? ==>
          !Touches(Replay(a, calls[..n - 1], trace[..n], results[..n - 1]).value, calls[n - 1], ks))
  }

  /** Over any run, a file that no call touches keeps its path and its bytes, whatever happens to others. */
  lemma {:induction false} RunKeepsFile(a: Client, calls: seq<Call>, trace: seq<Moment>, results: seq<Option<Result>>,
                                        ks: Path)
    requires |results| == |calls| && |trace| == |calls| + 1
    requires Replay(a, calls, trace, results).Some? && Spared(a, calls, trace, results, ks)
    requires PathKeys(ks) && ks in a.view.files
    ensures var b := Replay(a, calls, trace, results).value; ks in b.view.files && b.view.files[ks] == a.view.files[ks]
    decreases |calls|
  {
    hide Next, Touches, Allowed, PathKeys, Refused, Pictures;
    var n := |calls|;
    if n > 0 {
      RunKeepsFile(a, calls[..n - 1], trace[..n], results[..n - 1], ks);
      var b := Replay(a, calls[..n - 1], trace[..n], results[..n - 1]).value;
      if results[n - 1].Some? {
        StepKeepsFile(b, calls[n - 1], Refused(trace[n - 1], calls[n - 1], trace[n]), results[n - 1].value, ks);
      }
    }
  }

  /** Every run of disciplined calls, of any length and in any order, is a run of the client's file system
      with the same results, in which the driver refuses a call only for a reason of its own at that moment. The
      volume stays clean and holds what the client knows. No cluster is lost on the way: what an operation
      allocated is on exactly one chain. */
  method Run(v: Volume, calls: seq<Call>, ghost a: Client)
    returns (results: seq<Option<Result>>, ghost trace: seq<Moment>)
    requires Matches(v, a)
    modifies v
    ensures Clean(v) && |results| == |calls| && |trace| == |calls| + 1
    ensures trace[0] == old(Now(v)) && trace[|calls|] == Now(v)
    ensures Replay(a, calls, trace, results).Some? && Matches(v, Replay(a, calls, trace, results).value)
    ensures v.o.lost == old(v.o.lost)
    ensures forall c :: 2 <= c < 4080 && v.Table()[c] != 0 && c !in old(v.o.lost) ==> OnOneChain(v.o, v.home, c)
  {
    hide Clean, Allowed, Seen, Next, HandlesShown, Refused, Replayed, Volume.VolumeOk, Volume.T, Volume.Table;
    results := [];
    ghost var b := a;
    CleanValid(v);
    trace := [Now(v)];
    Pictured(v, a);
    for i := 0 to |calls|
      invariant |results| == i && |trace| == i + 1 && Matches(v, b) && v.Valid()
      invariant trace[0] == old(Now(v)) && trace[i] == Now(v)
      invariant Replay(a, calls[..i], trace, results) == Some(b)
      invariant v.o.lost == old(v.o.lost)
    {
      ghost var b0, m := b, Now(v);
      var ok := Check(v, calls[i], b);
      var r: Option<Result> := None;
      if ok {
        var x;
        x, b := Perform(v, calls[i], b);
        r := Some(x);
        CleanValid(v);
        Pictured(v, b);
      }
      OneMoreCall(a, calls, i, trace, results, b0, m, Now(v), r, b);
      trace := trace + [Now(v)];
      results := results + [r];
    }
    assert calls[..|calls|] == calls;
    Accountable(v);
  }

  lemma CleanValid(v: Volume)
    requires Clean(v)
    ensures v.Valid()
  {
  }

  lemma Pictured(v: Volume, a: Client)
    requires Matches(v, a) && v.Valid()
    ensures Pictures(Now(v), a)
  {
    hide Clean, ViewOf, HandlesShown;
  }

  /** One more call at the end of a run. */
  lemma OneMoreCall(a: Client, calls: seq<Call>, i: nat, trace: seq<Moment>, results: seq<Option<Result>>, b: Client,
                    m: Moment, m': Moment, r: Option<Result>, c: Client)
    requires i < |calls| && |results| == i && |trace| == i + 1 && trace[i] == m
    requires Replay(a, calls[..i], trace, results) == Some(b)
    requires if Allowed(b, calls[i])
             then r.Some? && Next(b, calls[i], Refused(m, calls[i], m'), r.value) == Some(c) && Pictures(m', c)
                  && m'.o.lost == m.o.lost
             else r.None? && m' == m && c == b
    ensures Replay(a, calls[..i + 1], trace + [m'], results + [r]) == Some(c)
  {
    hide Allowed, Next, Refused, Pictures;
    var calls', trace', results' := calls[..i + 1], trace + [m'], results + [r];
    assert calls'[..i] == calls[..i] && trace'[..i + 1] == trace && results'[..i] == results;
    assert calls'[i] == calls[i] && trace'[i] == m && trace'[i + 1] == m' && results'[i] == r;
    hide Replayed;
    assert Replay(a, calls', trace', results') == Replayed(b, calls[i], m, m', r);
  }
}
