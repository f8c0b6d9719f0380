/** Asset sync: pkg/assets/application/service.go, the manifest of pkg/assets/domain/domain.go, and the store of
    pkg/assets/infrastructure/memstore/memstore.go. */
module Assets {
  import opened Strings
  import Gitignore

  newtype byte = x: int | 0 <= x < 256

  type Bytes = seq<byte>

  /** One line of an index; path is the cleaned path of the file in the workspace. */
  datatype Object = Object(path: string, sha256: string, size: nat, contentType: string)

  /** The regular files with their bytes, and the directories. */
  datatype Disk = Disk(files: map<string, Bytes>, dirs: set<string>)

  type Store = map<string, Bytes>

  /** Library code: the hexadecimal hash, the folding that makes two spellings of it equal, and the content type
      that goes with a file name. */
  datatype Library = Library(hash: Bytes -> string, fold: string -> string, contentType: string -> string)

  /** The index line of a file with these bytes. */
  function ObjectOf(lib: Library, path: string, data: Bytes): Object {
    Object(path, lib.hash(data), |data|, lib.contentType(path))
  }

  predicate Fits(lib: Library, data: Bytes, sha256: string) {
    lib.fold(lib.hash(data)) == lib.fold(sha256)
  }

  /** Which calls fail while one object is pulled. A failed write may leave any bytes behind. */
  datatype Faults = Faults(
    stat: bool, hash: bool, get: bool, read: bool, mkdir: bool, newDirs: set<string>,
    write: bool, left: Option<Bytes>, rename: bool, remove: bool)

  datatype PullError =
    | StatFailed | HashFailed | HashMismatch | NotInStore | ReadFailed | BadDownload
    | MkdirFailed | WriteFailed | RenameFailed | NoIndex

  function Temp(path: string): string {
    path + ".orbit-download"
  }

  /** A disk and the first error met on the way to it. */
  datatype Pulled = Pulled(disk: Disk, error: Option<PullError>)

  function MadeDirs(disk: Disk, dirs: set<string>): Disk {
    disk.(dirs := disk.dirs + (dirs - disk.files.Keys))
  }

  /** Writing the checked bytes beside the file and moving them over it. */
  function Replace(disk: Disk, path: string, data: Bytes, f: Faults): Pulled {
    var made, tmp := MadeDirs(disk, f.newDirs), Temp(path);
    if f.mkdir then Pulled(made, Some(MkdirFailed))
    else if f.write || tmp in made.dirs then
      Pulled(if tmp in made.dirs || f.left.None? then made else made.(files := made.files[tmp := f.left.value]),
             Some(WriteFailed))
    else
      var written := made.(files := made.files[tmp := data]);
      if f.rename || path in made.dirs then
        Pulled(if f.remove then written else made.(files := made.files - {tmp}), Some(RenameFailed))
      else Pulled(made.(files := (made.files - {tmp})[path := data]), None)
  }

  function OnePulled(lib: Library, store: Store, disk: Disk, o: Object, force: bool, f: Faults): Pulled {
    if f.stat then Pulled(disk, Some(StatFailed))
    else if o.path in disk.files && f.hash then Pulled(disk, Some(HashFailed))
    else if o.path in disk.files && Fits(lib, disk.files[o.path], o.sha256) then Pulled(disk, None)
    else if o.path in disk.files && !force then Pulled(disk, Some(HashMismatch))
    else if f.get || o.sha256 !in store then Pulled(disk, Some(NotInStore))
    else if f.read then Pulled(disk, Some(ReadFailed))
    else if !Fits(lib, store[o.sha256], o.sha256) then Pulled(disk, Some(BadDownload))
    else Replace(disk, o.path, store[o.sha256], f)
  }

  function First(a: Option<PullError>, b: Option<PullError>): Option<PullError> {
    if a.Some? then a else b
  }

  /** All objects of one index, one after another, whatever fails. */
  function AllPulled(
      lib: Library, store: Store, disk: Disk, objects: seq<Object>, force: bool, faults: seq<Faults>): Pulled
    requires |faults| == |objects|
    decreases |objects|
  {
    if objects == [] then Pulled(disk, None)
    else
      var one := OnePulled(lib, store, disk, objects[0], force, faults[0]);
      var rest := AllPulled(lib, store, one.disk, objects[1..], force, faults[1..]);
      Pulled(rest.disk, First(one.error, rest.error))
  }

  /** One repository: whether its index can be looked for, is there, and can be read. */
  datatype Repository = StatError | NoManifest | Unreadable | Indexed(objects: seq<Object>, faults: seq<Faults>)

  predicate Answered(repos: seq<Repository>) {
    forall i :: 0 <= i < |repos| && repos[i].Indexed? ==> |repos[i].faults| == |repos[i].objects|
  }

  /** The repositories from i on that have an index, up to the first whose index cannot be looked for. */
  function WithIndex(repos: seq<Repository>, i: nat): seq<nat>
    decreases |repos| - i
  {
    if i >= |repos| || repos[i].StatError? then []
    else (if repos[i].NoManifest? then [] else [i]) + WithIndex(repos, i + 1)
  }

  lemma WithIndexNext(repos: seq<Repository>, i: nat, done: seq<nat>)
    requires i < |repos| && !repos[i].StatError?
    ensures done + WithIndex(repos, i) == (if repos[i].NoManifest? then done else done + [i]) + WithIndex(repos, i + 1)
  {
  }

  lemma AnsweredRest(repos: seq<Repository>)
    requires Answered(repos) && repos != []
    ensures Answered(repos[1..])
  {
    var rest := repos[1..];
    assert forall i :: 0 <= i < |rest| ==> rest[i] == repos[i + 1];
  }

  /** The repositories of a whole pull, after the first error met so far; an index that cannot even be looked for
      ends it. */
  function PulledFrom(
      lib: Library, store: Store, disk: Disk, repos: seq<Repository>, force: bool, first: Option<PullError>): Pulled
    requires Answered(repos)
    decreases |repos|
  {
    if repos == [] then Pulled(disk, first)
    else
      match repos[0]
      case StatError => Pulled(disk, Some(NoIndex))
      case NoManifest => PulledFrom(lib, store, disk, repos[1..], force, first)
      case Unreadable => PulledFrom(lib, store, disk, repos[1..], force, First(first, Some(NoIndex)))
      case Indexed(objects, faults) =>
        var one := AllPulled(lib, store, disk, objects, force, faults);
        PulledFrom(lib, store, one.disk, repos[1..], force, First(first, one.error))
  }

  function ReposPulled(lib: Library, store: Store, disk: Disk, repos: seq<Repository>, force: bool): Pulled
    requires Answered(repos)
  {
    PulledFrom(lib, store, disk, repos, force, None)
  }

  function Objects(repos: seq<Repository>): seq<Object>
    decreases |repos|
  {
    if repos == [] then []
    else (if repos[0].Indexed? then repos[0].objects else []) + Objects(repos[1..])
  }

  // ----- what a pull can change

  predicate IsTemp(objects: seq<Object>, path: string) {
    exists i :: 0 <= i < |objects| && path == Temp(objects[i].path)
  }

  predicate Same(a: Disk, b: Disk, path: string) {
    (path in a.files <==> path in b.files) && (path in a.files ==> b.files[path] == a.files[path])
  }

  predicate Present(lib: Library, disk: Disk, o: Object) {
    o.path in disk.files && Fits(lib, disk.files[o.path], o.sha256)
  }

  ghost predicate AllPresent(lib: Library, disk: Disk, objects: seq<Object>) {
    forall i :: 0 <= i < |objects| ==> Present(lib, disk, objects[i])
  }

  predicate SomePresent(lib: Library, disk: Disk, objects: seq<Object>, path: string) {
    exists i :: 0 <= i < |objects| && objects[i].path == path && Present(lib, disk, objects[i])
  }

  predicate SomeAbsent(lib: Library, disk: Disk, objects: seq<Object>, path: string) {
    exists i :: 0 <= i < |objects| && objects[i].path == path && !Present(lib, disk, objects[i])
  }

  /** The file was brought in: it fits a line of the index now, there was a line it did not fit, and it was
      missing or it was forced. */
  predicate Brought(lib: Library, a: Disk, b: Disk, objects: seq<Object>, path: string, force: bool) {
    && SomePresent(lib, b, objects, path) && SomeAbsent(lib, a, objects, path)
    && (path in a.files ==> force)
  }

  /** Apart from download names, files are as they were, or were brought in. */
  ghost predicate OnlyBrings(lib: Library, a: Disk, b: Disk, objects: seq<Object>, force: bool) {
    forall p :: !IsTemp(objects, p) ==> Same(a, b, p) || Brought(lib, a, b, objects, p, force)
  }

  lemma OnePulledBrings(lib: Library, store: Store, disk: Disk, o: Object, force: bool, f: Faults)
    ensures
      var r := OnePulled(lib, store, disk, o, force, f);
      && (forall p :: p != Temp(o.path) && p != o.path ==> Same(disk, r.disk, p))
      && (|| Same(disk, r.disk, o.path)
          || (Present(lib, r.disk, o) && !Present(lib, disk, o) && (o.path in disk.files ==> force)))
      && (r.error == None ==> Present(lib, r.disk, o))
      && (r.error == None && Present(lib, disk, o) ==> r.disk == disk)
  {
    assert |Temp(o.path)| > |o.path|;
  }

  lemma OnePulledOnly(lib: Library, store: Store, disk: Disk, o: Object, force: bool, f: Faults)
    ensures OnlyBrings(lib, disk, OnePulled(lib, store, disk, o, force, f).disk, [o], force)
  {
    OnePulledBrings(lib, store, disk, o, force, f);
    var after := OnePulled(lib, store, disk, o, force, f).disk;
    assert [o][0] == o;
    forall p | !IsTemp([o], p) ensures Same(disk, after, p) || Brought(lib, disk, after, [o], p, force) {
      assert p != Temp([o][0].path);
    }
  }

  lemma InConcat(lib: Library, disk: Disk, a: seq<Object>, b: seq<Object>, p: string)
    ensures IsTemp(a + b, p) <==> IsTemp(a, p) || IsTemp(b, p)
    ensures SomePresent(lib, disk, a + b, p) <==> SomePresent(lib, disk, a, p) || SomePresent(lib, disk, b, p)
    ensures SomeAbsent(lib, disk, a + b, p) <==> SomeAbsent(lib, disk, a, p) || SomeAbsent(lib, disk, b, p)
  {
    var all := a + b;
    assert forall i :: 0 <= i < |a| ==> all[i] == a[i];
    assert forall j :: 0 <= j < |b| ==> all[|a| + j] == b[j];
  }

  lemma SameKeeps(lib: Library, a: Disk, b: Disk, objects: seq<Object>, p: string)
    requires Same(a, b, p)
    ensures SomePresent(lib, a, objects, p) <==> SomePresent(lib, b, objects, p)
    ensures SomeAbsent(lib, a, objects, p) <==> SomeAbsent(lib, b, objects, p)
  {
  }

  lemma BringsBoth(lib: Library, d0: Disk, d1: Disk, d2: Disk, a: seq<Object>, b: seq<Object>, force: bool)
    requires OnlyBrings(lib, d0, d1, a, force) && OnlyBrings(lib, d1, d2, b, force)
    ensures OnlyBrings(lib, d0, d2, a + b, force)
  {
    forall p | !IsTemp(a + b, p) ensures Same(d0, d2, p) || Brought(lib, d0, d2, a + b, p, force) {
      InConcat(lib, d0, a, b, p);
      InConcat(lib, d2, a, b, p);
      if Same(d0, d1, p) {
        SameKeeps(lib, d0, d1, b, p);
      } else if Same(d1, d2, p) {
        SameKeeps(lib, d1, d2, a, p);
      }
    }
  }

  lemma {:induction false} AllPulledBrings(
      lib: Library, store: Store, disk: Disk, objects: seq<Object>, force: bool, faults: seq<Faults>)
    requires |faults| == |objects|
    ensures OnlyBrings(lib, disk, AllPulled(lib, store, disk, objects, force, faults).disk, objects, force)
    decreases |objects|
  {
    if objects != [] {
      var o, rest := objects[0], objects[1..];
      var one := OnePulled(lib, store, disk, o, force, faults[0]);
      OnePulledOnly(lib, store, disk, o, force, faults[0]);
      AllPulledBrings(lib, store, one.disk, rest, force, faults[1..]);
      BringsBoth(lib, disk, one.disk, AllPulled(lib, store, one.disk, rest, force, faults[1..]).disk, [o], rest, force);
      assert [o] + rest == objects;
    }
  }

  lemma {:induction false} PulledFromBrings(
      lib: Library, store: Store, disk: Disk, repos: seq<Repository>, force: bool, first: Option<PullError>)
    requires Answered(repos)
    ensures OnlyBrings(lib, disk, PulledFrom(lib, store, disk, repos, force, first).disk, Objects(repos), force)
    decreases |repos|
  {
    if repos != [] {
      var objects := if repos[0].Indexed? then repos[0].objects else [];
      var rest := repos[1..];
      AnsweredRest(repos);
      match repos[0] {
        case StatError =>
        case NoManifest =>
          assert [] + Objects(rest) == Objects(rest);
          PulledFromBrings(lib, store, disk, rest, force, first);
        case Unreadable =>
          assert [] + Objects(rest) == Objects(rest);
          PulledFromBrings(lib, store, disk, rest, force, First(first, Some(NoIndex)));
        case Indexed(_, faults) =>
          var one := AllPulled(lib, store, disk, objects, force, faults);
          var more := First(first, one.error);
          AllPulledBrings(lib, store, disk, objects, force, faults);
          PulledFromBrings(lib, store, one.disk, rest, force, more);
          BringsBoth(lib, disk, one.disk, PulledFrom(lib, store, one.disk, rest, force, more).disk,
                     objects, Objects(rest), force);
      }
    }
  }

  /** On any outcome, for any indexes, and whatever the store holds: apart from download names a pull changes only
      files of indexed paths, each of which then fits a line of its index and was missing or forced. */
  lemma PullBrings(lib: Library, store: Store, disk: Disk, repos: seq<Repository>, force: bool)
    requires Answered(repos)
    ensures OnlyBrings(lib, disk, ReposPulled(lib, store, disk, repos, force).disk, Objects(repos), force)
  {
    PulledFromBrings(lib, store, disk, repos, force, None);
  }

  /** Without force, a file that is there keeps its bytes, whatever fails on the way. */
  lemma UnforcedKeeps(lib: Library, store: Store, disk: Disk, repos: seq<Repository>, path: string)
    requires Answered(repos) && path in disk.files && !IsTemp(Objects(repos), path)
    ensures Same(disk, ReposPulled(lib, store, disk, repos, false).disk, path)
  {
    PullBrings(lib, store, disk, repos, false);
  }

  // ----- which error a pull reports

  /** Pulling one object: a file that fits is left alone; one that does not is a mismatch unless it is forced. What is
      downloaded must be in the store and fit the line, or the disk stays as it is. */
  lemma OneError(lib: Library, store: Store, disk: Disk, o: Object, force: bool, f: Faults)
    ensures
      var r := OnePulled(lib, store, disk, o, force, f);
      if f.stat then r == Pulled(disk, Some(StatFailed))
      else if o.path in disk.files && f.hash then r == Pulled(disk, Some(HashFailed))
      else if o.path in disk.files && lib.fold(lib.hash(disk.files[o.path])) == lib.fold(o.sha256) then
        r == Pulled(disk, None)
      else if o.path in disk.files && !force then r == Pulled(disk, Some(HashMismatch))
      else if f.get || o.sha256 !in store then r == Pulled(disk, Some(NotInStore))
      else if f.read then r == Pulled(disk, Some(ReadFailed))
      else if lib.fold(lib.hash(store[o.sha256])) != lib.fold(o.sha256) then r == Pulled(disk, Some(BadDownload))
      else r == Replace(disk, o.path, store[o.sha256], f)
  {
  }

  /** What the last steps leave. The file is replaced when no call fails and no directory is in the way; otherwise
      nothing but the download name can have changed: it is untouched when the directory could not be made, holds what
      a failed write left, and goes when the rename failed unless it cannot be removed. */
  lemma DownloadMeans(disk: Disk, path: string, data: Bytes, f: Faults)
    ensures
      var r, tmp := Replace(disk, path, data, f), path + ".orbit-download";
      var dirs := disk.dirs + (f.newDirs - disk.files.Keys);
      && r.disk.dirs == dirs
      && if f.mkdir then r.error == Some(MkdirFailed) && r.disk.files == disk.files
         else if tmp in dirs then r.error == Some(WriteFailed) && r.disk.files == disk.files
         else if f.write then
           && r.error == Some(WriteFailed)
           && r.disk.files == match f.left case None => disk.files case Some(part) => disk.files[tmp := part]
         else if f.rename || path in dirs then
           && r.error == Some(RenameFailed)
           && r.disk.files == if f.remove then disk.files[tmp := data] else disk.files - {tmp}
         else r.error == None && r.disk.files == (disk.files - {tmp})[path := data]
  {
  }

  /** With one repository more: nothing more happens once an index could not be looked for; otherwise its lines are
      pulled on what the others left, and its error counts when they had none or its index cannot be looked for. */
  lemma {:induction false} RepositoryMore(lib: Library, store: Store, disk: Disk, repos: seq<Repository>, r: Repository,
                                          force: bool, first: Option<PullError>)
    requires Answered(repos) && Answered(repos + [r]) && Answered([r])
    ensures
      var before := PulledFrom(lib, store, disk, repos, force, first);
      var after := PulledFrom(lib, store, disk, repos + [r], force, first);
      if exists i :: 0 <= i < |repos| && repos[i].StatError? then after == before
      else
        match r
        case StatError => after == Pulled(before.disk, Some(NoIndex))
        case NoManifest => after == before
        case Unreadable => after == Pulled(before.disk, if before.error.Some? then before.error else Some(NoIndex))
        case Indexed(objects, faults) =>
          assert [r][0] == r;
          var one := AllPulled(lib, store, before.disk, objects, force, faults);
          after == Pulled(one.disk, if before.error.Some? then before.error else one.error)
    decreases |repos|
  {
    if repos == [] {
      assert [r][1..] == [] && [] + [r] == [r] && [r][0] == r;
    } else {
      var rest := repos[1..];
      assert (repos + [r])[1..] == rest + [r] && (repos + [r])[0] == repos[0];
      AnsweredRest(repos);
      AnsweredRest(repos + [r]);
      match repos[0] {
        case StatError =>
        case NoManifest => RepositoryMore(lib, store, disk, rest, r, force, first);
        case Unreadable => RepositoryMore(lib, store, disk, rest, r, force, First(first, Some(NoIndex)));
        case Indexed(objects, faults) =>
          var one := AllPulled(lib, store, disk, objects, force, faults);
          RepositoryMore(lib, store, one.disk, rest, r, force, First(first, one.error));
      }
      SomeStatError(repos);
    }
  }

  lemma SomeStatError(repos: seq<Repository>)
    requires repos != []
    ensures (exists i :: 0 <= i < |repos| && repos[i].StatError?) <==>
      repos[0].StatError? || exists i :: 0 <= i < |repos[1..]| && repos[1..][i].StatError?
  {
    var rest := repos[1..];
    assert forall i :: 0 < i < |repos| ==> repos[i] == rest[i - 1];
  }

  /** The repositories reported are those that have an index, readable or not, up to the first whose index cannot be
      looked for. */
  lemma {:induction false} WithIndexMeans(repos: seq<Repository>, i: nat, j: nat)
    ensures j in WithIndex(repos, i) <==>
      i <= j < |repos| && !repos[j].NoManifest? && forall k :: i <= k <= j ==> !repos[k].StatError?
    decreases |repos| - i
  {
    if i < |repos| && !repos[i].StatError? {
      var rest := WithIndex(repos, i + 1);
      WithIndexMeans(repos, i + 1, j);
      if repos[i].NoManifest? {
        assert [] + rest == rest;
      } else {
        assert WithIndex(repos, i) == [i] + rest;
      }
    }
  }

  /** In the order they come. */
  lemma {:induction false} WithIndexRises(repos: seq<Repository>, i: nat)
    ensures Rising(WithIndex(repos, i), i)
    decreases |repos| - i
  {
    if i < |repos| && !repos[i].StatError? {
      var rest := WithIndex(repos, i + 1);
      WithIndexRises(repos, i + 1);
      RisingLower(rest, i + 1, i);
      assert [] + rest == rest && ([i] + rest)[1..] == rest;
    }
  }

  /** In rising order, from n on. */
  predicate Rising(s: seq<nat>, n: nat) {
    s == [] || (s[0] >= n && Rising(s[1..], s[0] + 1))
  }

  lemma RisingLower(s: seq<nat>, n: nat, m: nat)
    requires m <= n && Rising(s, n)
    ensures Rising(s, m)
  {
  }

  /** What pulling object k adds, when the ones before it were pulled. */
  function DiskAt(lib: Library, store: Store, disk: Disk, objects: seq<Object>, force: bool, faults: seq<Faults>,
                  k: nat): Disk
    requires |faults| == |objects| && k <= |objects|
  {
    if k == 0 then disk
    else OnePulled(lib, store, DiskAt(lib, store, disk, objects, force, faults, k - 1), objects[k - 1], force,
                   faults[k - 1]).disk
  }

  lemma {:induction false} DiskAtRest(lib: Library, store: Store, disk: Disk, objects: seq<Object>, force: bool,
                                      faults: seq<Faults>, k: nat)
    requires |faults| == |objects| && 0 < k <= |objects|
    ensures DiskAt(lib, store, disk, objects, force, faults, k) ==
      DiskAt(lib, store, OnePulled(lib, store, disk, objects[0], force, faults[0]).disk, objects[1..], force,
             faults[1..], k - 1)
  {
    if k > 1 {
      DiskAtRest(lib, store, disk, objects, force, faults, k - 1);
    }
  }

  /** The index is pulled to its end whatever fails, each line on what the ones before it left, and the error is that of
      the first line that failed. */
  lemma {:induction false} FirstErrorWins(lib: Library, store: Store, disk: Disk, objects: seq<Object>, force: bool,
                                          faults: seq<Faults>, k: nat)
    requires |faults| == |objects| && k < |objects|
    ensures
      var r := AllPulled(lib, store, disk, objects, force, faults);
      var at := DiskAt(lib, store, disk, objects, force, faults, k);
      var one := OnePulled(lib, store, at, objects[k], force, faults[k]);
      && r.disk == DiskAt(lib, store, disk, objects, force, faults, |objects|)
      && (one.error.Some? ==> r.error.Some?)
      && (one.error.Some? && AllPulled(lib, store, disk, objects[..k], force, faults[..k]).error == None ==>
            r.error == one.error)
    decreases |objects|
  {
    var next := OnePulled(lib, store, disk, objects[0], force, faults[0]);
    var rest, more := objects[1..], faults[1..];
    DiskAtRest(lib, store, disk, objects, force, faults, |objects|);
    if k > 0 {
      DiskAtRest(lib, store, disk, objects, force, faults, k);
      assert objects[..k][1..] == rest[..k - 1] && faults[..k][1..] == more[..k - 1];
      FirstErrorWins(lib, store, next.disk, rest, force, more, k - 1);
    } else if rest != [] {
      FirstErrorWins(lib, store, next.disk, rest, force, more, 0);
    }
  }

  // ----- what a pull without an error leaves

  /** Lines with one path have one hash. */
  predicate Consistent(lib: Library, objects: seq<Object>) {
    forall i, j :: 0 <= i < |objects| && 0 <= j < |objects| && objects[i].path == objects[j].path ==>
      lib.fold(objects[i].sha256) == lib.fold(objects[j].sha256)
  }

  /** The names standing after one more line: a name that stands is left alone; any other is downloaded, which
      takes away what stands under its download name. */
  function StandsAfter(standing: set<string>, path: string): set<string> {
    if path in standing then standing else standing - {Temp(path)} + {path}
  }

  function StandingFrom(standing: set<string>, objects: seq<Object>): set<string>
    decreases |objects|
  {
    if objects == [] then standing else StandingFrom(StandsAfter(standing, objects[0].path), objects[1..])
  }

  /** No line of the index takes away a file that a line before it brings and no line after it brings back. */
  predicate Complete(objects: seq<Object>) {
    forall i :: 0 <= i < |objects| ==> objects[i].path in StandingFrom({}, objects)
  }

  /** The files of these names fit all their lines. */
  ghost predicate Backed(lib: Library, disk: Disk, standing: set<string>, all: seq<Object>) {
    forall i :: 0 <= i < |all| && all[i].path in standing ==> Present(lib, disk, all[i])
  }

  lemma OneBacks(lib: Library, store: Store, disk: Disk, all: seq<Object>, k: nat, force: bool, f: Faults,
                 standing: set<string>)
    requires Consistent(lib, all) && k < |all| && Backed(lib, disk, standing, all)
    requires OnePulled(lib, store, disk, all[k], force, f).error == None
    ensures Backed(lib, OnePulled(lib, store, disk, all[k], force, f).disk, StandsAfter(standing, all[k].path), all)
  {
    var o, after := all[k], OnePulled(lib, store, disk, all[k], force, f).disk;
    OnePulledBrings(lib, store, disk, o, force, f);
    if o.path !in standing {
      forall i | 0 <= i < |all| && all[i].path in StandsAfter(standing, o.path) ensures Present(lib, after, all[i]) {
        if all[i].path != o.path {
          assert Same(disk, after, all[i].path);
        }
      }
    }
  }

  lemma {:induction false} AllBack(lib: Library, store: Store, disk: Disk, all: seq<Object>, k: nat, force: bool,
                                   faults: seq<Faults>, standing: set<string>)
    requires Consistent(lib, all) && k <= |all| && |faults| == |all| - k && Backed(lib, disk, standing, all)
    requires AllPulled(lib, store, disk, all[k..], force, faults).error == None
    ensures
      Backed(lib, AllPulled(lib, store, disk, all[k..], force, faults).disk, StandingFrom(standing, all[k..]), all)
    decreases |all| - k
  {
    if k < |all| {
      var one := OnePulled(lib, store, disk, all[k], force, faults[0]);
      assert all[k..][0] == all[k] && all[k..][1..] == all[k + 1..];
      OneBacks(lib, store, disk, all, k, force, faults[0], standing);
      AllBack(lib, store, one.disk, all, k + 1, force, faults[1..], StandsAfter(standing, all[k].path));
    }
  }

  /** A pull of one index without an error, forced or not, leaves every indexed file fitting its line, when lines
      with one path have one hash and none takes away what another brings for good. */
  lemma NoErrorAllPresent(
      lib: Library, store: Store, disk: Disk, objects: seq<Object>, force: bool, faults: seq<Faults>)
    requires |faults| == |objects| && Consistent(lib, objects) && Complete(objects)
    requires AllPulled(lib, store, disk, objects, force, faults).error == None
    ensures AllPresent(lib, AllPulled(lib, store, disk, objects, force, faults).disk, objects)
  {
    assert objects[0..] == objects;
    AllBack(lib, store, disk, objects, 0, force, faults, {});
  }

  // ----- both conditions are needed

  const NO_FAULTS := Faults(false, false, false, false, false, {}, false, None, false, false)

  /** The store holds every listed object. */
  ghost predicate Serves(lib: Library, store: Store, objects: seq<Object>) {
    forall i :: 0 <= i < |objects| ==>
      objects[i].sha256 in store && Fits(lib, store[objects[i].sha256], objects[i].sha256)
  }

  function Perfect(n: nat): (faults: seq<Faults>)
    ensures |faults| == n && forall i :: 0 <= i < n ==> faults[i] == NO_FAULTS
  {
    seq(n, _ => NO_FAULTS)
  }

  lemma PerfectOne(lib: Library, store: Store, disk: Disk, o: Object)
    requires disk.dirs == {} && o.sha256 in store && Fits(lib, store[o.sha256], o.sha256)
    ensures
      var r := OnePulled(lib, store, disk, o, true, NO_FAULTS);
      && r.error == None && r.disk.dirs == {}
      && r.disk.files.Keys ==
           if Present(lib, disk, o) then disk.files.Keys else disk.files.Keys - {Temp(o.path)} + {o.path}
  {
    assert |Temp(o.path)| > |o.path|;
  }

  /** A forced pull in which no call fails, onto a disk without directories, ends without an error. */
  lemma {:induction false} PerfectRun(lib: Library, store: Store, disk: Disk, objects: seq<Object>)
    requires disk.dirs == {} && Serves(lib, store, objects)
    ensures AllPulled(lib, store, disk, objects, true, Perfect(|objects|)).error == None
    decreases |objects|
  {
    if objects != [] {
      PerfectOne(lib, store, disk, objects[0]);
      var rest := objects[1..];
      assert forall i :: 0 <= i < |rest| ==> rest[i] == objects[i + 1];
      PerfectRun(lib, store, OnePulled(lib, store, disk, objects[0], true, NO_FAULTS).disk, rest);
      assert Perfect(|objects|)[1..] == Perfect(|rest|);
    }
  }

  lemma {:induction false} PerfectKeys(lib: Library, store: Store, disk: Disk, all: seq<Object>, k: nat)
    requires disk.dirs == {} && Serves(lib, store, all) && Consistent(lib, all) && k <= |all|
    requires Backed(lib, disk, disk.files.Keys, all)
    ensures AllPulled(lib, store, disk, all[k..], true, Perfect(|all| - k)).disk.files.Keys ==
      StandingFrom(disk.files.Keys, all[k..])
    decreases |all| - k
  {
    if k < |all| {
      var one := OnePulled(lib, store, disk, all[k], true, NO_FAULTS);
      assert all[k..][0] == all[k] && all[k..][1..] == all[k + 1..];
      assert Perfect(|all| - k)[1..] == Perfect(|all| - (k + 1));
      PerfectOne(lib, store, disk, all[k]);
      OneBacks(lib, store, disk, all, k, true, NO_FAULTS, disk.files.Keys);
      PerfectKeys(lib, store, one.disk, all, k + 1);
    }
  }

  lemma PerfectMisses(lib: Library, store: Store, objects: seq<Object>)
    requires Serves(lib, store, objects) && !(Consistent(lib, objects) && Complete(objects))
    ensures
      var r := AllPulled(lib, store, Disk(map[], {}), objects, true, Perfect(|objects|));
      r.error == None && !AllPresent(lib, r.disk, objects)
  {
    var r := AllPulled(lib, store, Disk(map[], {}), objects, true, Perfect(|objects|));
    PerfectRun(lib, store, Disk(map[], {}), objects);
    if Consistent(lib, objects) {
      assert objects[0..] == objects && Disk(map[], {}).files.Keys == {};
      PerfectKeys(lib, store, Disk(map[], {}), objects, 0);
      assert r.disk.files.Keys == StandingFrom({}, objects);
      var i :| 0 <= i < |objects| && objects[i].path !in StandingFrom({}, objects);
      assert !Present(lib, r.disk, objects[i]);
    }
  }

  // ----- an unforced pull

  /** What an unforced pull without an error is sure to leave standing, each name with the hash of its file: a
      name that stands must have the hash it is listed with, or the pull ends with an error. */
  function HeldFrom(lib: Library, held: map<string, string>, objects: seq<Object>): Option<map<string, string>>
    decreases |objects|
  {
    if objects == [] then Some(held)
    else
      var path, hash := objects[0].path, lib.fold(objects[0].sha256);
      if path !in held then HeldFrom(lib, (held - {Temp(path)})[path := hash], objects[1..])
      else if held[path] == hash then HeldFrom(lib, held, objects[1..])
      else None
  }

  predicate HoldsAll(lib: Library, held: map<string, string>, objects: seq<Object>) {
    forall i :: 0 <= i < |objects| ==>
      objects[i].path in held && held[objects[i].path] == lib.fold(objects[i].sha256)
  }

  /** Either the lines contradict each other, so that no pull succeeds, or at the end all of them stand. */
  predicate ClashesOrHolds(lib: Library, objects: seq<Object>) {
    var held := HeldFrom(lib, map[], objects);
    held.Some? ==> HoldsAll(lib, held.value, objects)
  }

  ghost predicate OnDisk(lib: Library, disk: Disk, held: map<string, string>) {
    forall p :: p in held ==> p in disk.files && lib.fold(lib.hash(disk.files[p])) == held[p]
  }

  lemma {:induction false} NoErrorHolds(lib: Library, store: Store, disk: Disk, objects: seq<Object>,
                                       faults: seq<Faults>, held: map<string, string>)
    requires |faults| == |objects| && OnDisk(lib, disk, held)
    requires AllPulled(lib, store, disk, objects, false, faults).error == None
    ensures HeldFrom(lib, held, objects).Some?
    ensures OnDisk(lib, AllPulled(lib, store, disk, objects, false, faults).disk, HeldFrom(lib, held, objects).value)
    decreases |objects|
  {
    if objects != [] {
      var o := objects[0];
      var one := OnePulled(lib, store, disk, o, false, faults[0]);
      var next := if o.path in held then held else (held - {Temp(o.path)})[o.path := lib.fold(o.sha256)];
      OnePulledBrings(lib, store, disk, o, false, faults[0]);
      forall p | p in next ensures p in one.disk.files && lib.fold(lib.hash(one.disk.files[p])) == next[p] {
        assert p != o.path ==> p != Temp(o.path) || one.disk == disk;
      }
      NoErrorHolds(lib, store, one.disk, objects[1..], faults[1..], next);
    }
  }

  lemma {:induction false} PerfectHolds(lib: Library, store: Store, disk: Disk, objects: seq<Object>,
                                       held: map<string, string>)
    requires disk.dirs == {} && Serves(lib, store, objects) && HeldFrom(lib, held, objects).Some?
    requires OnDisk(lib, disk, held) && disk.files.Keys == held.Keys
    ensures
      var r := AllPulled(lib, store, disk, objects, false, Perfect(|objects|));
      r.error == None && r.disk.files.Keys == HeldFrom(lib, held, objects).value.Keys
    decreases |objects|
  {
    if objects != [] {
      var o, rest := objects[0], objects[1..];
      var one := OnePulled(lib, store, disk, o, false, NO_FAULTS);
      var next := if o.path in held then held else (held - {Temp(o.path)})[o.path := lib.fold(o.sha256)];
      PerfectUnforced(lib, store, disk, o, held);
      assert forall i :: 0 <= i < |rest| ==> rest[i] == objects[i + 1];
      PerfectHolds(lib, store, one.disk, rest, next);
      assert Perfect(|objects|)[1..] == Perfect(|rest|);
    }
  }

  lemma PerfectUnforced(lib: Library, store: Store, disk: Disk, o: Object, held: map<string, string>)
    requires disk.dirs == {} && o.sha256 in store && Fits(lib, store[o.sha256], o.sha256)
    requires OnDisk(lib, disk, held) && disk.files.Keys == held.Keys
    requires o.path in held ==> held[o.path] == lib.fold(o.sha256)
    ensures
      var r := OnePulled(lib, store, disk, o, false, NO_FAULTS);
      var next := if o.path in held then held else (held - {Temp(o.path)})[o.path := lib.fold(o.sha256)];
      r.error == None && r.disk.dirs == {} && OnDisk(lib, r.disk, next) && r.disk.files.Keys == next.Keys
  {
    assert |Temp(o.path)| > |o.path|;
  }

  lemma UnforcedMisses(lib: Library, store: Store, objects: seq<Object>)
    requires Serves(lib, store, objects) && !ClashesOrHolds(lib, objects)
    ensures
      var r := AllPulled(lib, store, Disk(map[], {}), objects, false, Perfect(|objects|));
      r.error == None && !AllPresent(lib, r.disk, objects)
  {
    var held := HeldFrom(lib, map[], objects).value;
    var r := AllPulled(lib, store, Disk(map[], {}), objects, false, Perfect(|objects|));
    PerfectHolds(lib, store, Disk(map[], {}), objects, map[]);
    NoErrorHolds(lib, store, Disk(map[], {}), objects, Perfect(|objects|), map[]);
    var i :| 0 <= i < |objects| && !(objects[i].path in held && held[objects[i].path] == lib.fold(objects[i].sha256));
    assert !Present(lib, r.disk, objects[i]);
  }

  /** When lines with one path have one hash, the condition is the same as that of a forced pull. */
  lemma {:induction false} HeldStands(lib: Library, all: seq<Object>, k: nat, held: map<string, string>)
    requires Consistent(lib, all) && k <= |all|
    requires forall i :: 0 <= i < |all| && all[i].path in held ==> held[all[i].path] == lib.fold(all[i].sha256)
    ensures
      var after := HeldFrom(lib, held, all[k..]);
      && after.Some? && after.value.Keys == StandingFrom(held.Keys, all[k..])
      && forall i :: 0 <= i < |all| && all[i].path in after.value ==>
           after.value[all[i].path] == lib.fold(all[i].sha256)
    decreases |all| - k
  {
    if k < |all| {
      var path := all[k].path;
      assert all[k..][0] == all[k] && all[k..][1..] == all[k + 1..];
      if path in held {
        HeldStands(lib, all, k + 1, held);
      } else {
        var next := (held - {Temp(path)})[path := lib.fold(all[k].sha256)];
        assert next.Keys == held.Keys - {Temp(path)} + {path};
        HeldStands(lib, all, k + 1, next);
      }
    }
  }

  lemma UnforcedIsComplete(lib: Library, objects: seq<Object>)
    requires Consistent(lib, objects)
    ensures ClashesOrHolds(lib, objects) <==> Complete(objects)
  {
    var none: map<string, string> := map[];
    assert objects[0..] == objects && none.Keys == {};
    HeldStands(lib, objects, 0, none);
  }

  // ----- exactly when a pull without an error leaves every file fitting

  /** What an index must meet; it can be read off its lines. */
  predicate Sound(lib: Library, objects: seq<Object>, force: bool) {
    if force then Consistent(lib, objects) && Complete(objects) else ClashesOrHolds(lib, objects)
  }

  lemma SoundAllPresent(lib: Library, store: Store, disk: Disk, objects: seq<Object>, force: bool, faults: seq<Faults>)
    requires |faults| == |objects| && Sound(lib, objects, force)
    requires AllPulled(lib, store, disk, objects, force, faults).error == None
    ensures AllPresent(lib, AllPulled(lib, store, disk, objects, force, faults).disk, objects)
  {
    if force {
      NoErrorAllPresent(lib, store, disk, objects, force, faults);
    } else {
      NoErrorHolds(lib, store, disk, objects, faults, map[]);
    }
  }

  lemma NotSoundMisses(lib: Library, store: Store, objects: seq<Object>, force: bool)
    requires Serves(lib, store, objects) && !Sound(lib, objects, force)
    ensures
      var r := AllPulled(lib, store, Disk(map[], {}), objects, force, Perfect(|objects|));
      r.error == None && !AllPresent(lib, r.disk, objects)
  {
    if force {
      PerfectMisses(lib, store, objects);
    } else {
      UnforcedMisses(lib, store, objects);
    }
  }

  // ----- the second condition for an index with distinct paths

  /** No path is the download name of a later one. */
  predicate InOrder(objects: seq<Object>) {
    forall i, j :: 0 <= i < j < |objects| ==> objects[i].path != Temp(objects[j].path)
  }

  lemma {:induction false} KeepsStanding(standing: set<string>, objects: seq<Object>, p: string)
    requires p in standing && forall j :: 0 <= j < |objects| ==> p != Temp(objects[j].path)
    ensures p in StandingFrom(standing, objects)
    decreases |objects|
  {
    if objects != [] {
      var rest := objects[1..];
      assert forall j :: 0 <= j < |rest| ==> rest[j] == objects[j + 1];
      KeepsStanding(StandsAfter(standing, objects[0].path), rest, p);
    }
  }

  lemma {:induction false} StandsInOrder(standing: set<string>, objects: seq<Object>, i: nat)
    requires InOrder(objects) && i < |objects|
    ensures objects[i].path in StandingFrom(standing, objects)
    decreases |objects|
  {
    var rest, next := objects[1..], StandsAfter(standing, objects[0].path);
    assert forall j :: 0 <= j < |rest| ==> rest[j] == objects[j + 1];
    if i == 0 {
      KeepsStanding(next, rest, objects[0].path);
    } else {
      StandsInOrder(next, rest, i - 1);
    }
  }

  /** A name taken away does not come back, unless a later line has it. */
  lemma {:induction false} StaysAway(standing: set<string>, objects: seq<Object>, p: string)
    requires p !in standing && forall j :: 0 <= j < |objects| ==> p != objects[j].path
    ensures p !in StandingFrom(standing, objects)
    decreases |objects|
  {
    if objects != [] {
      var rest := objects[1..];
      assert forall j :: 0 <= j < |rest| ==> rest[j] == objects[j + 1];
      StaysAway(StandsAfter(standing, objects[0].path), rest, p);
    }
  }

  lemma {:induction false} TakenAway(standing: set<string>, objects: seq<Object>, p: string, j: nat)
    requires DistinctPaths(objects) && j < |objects| && p == Temp(objects[j].path)
    requires forall k :: 0 <= k < |objects| ==> objects[k].path !in standing
    requires forall k :: j <= k < |objects| ==> p != objects[k].path
    ensures p !in StandingFrom(standing, objects)
    decreases |objects|
  {
    var rest, next := objects[1..], StandsAfter(standing, objects[0].path);
    assert forall k :: 0 <= k < |rest| ==> rest[k] == objects[k + 1];
    assert |p| > |objects[j].path|;
    if j == 0 {
      StaysAway(next, rest, p);
    } else {
      TakenAway(next, rest, p, j - 1);
    }
  }

  /** For distinct paths, which adding keeps, the condition is that no path is the download name of a later one;
      that is enough in any case. */
  lemma CompleteIff(objects: seq<Object>)
    ensures InOrder(objects) ==> Complete(objects)
    ensures DistinctPaths(objects) ==> (Complete(objects) <==> InOrder(objects))
  {
    if InOrder(objects) {
      forall i | 0 <= i < |objects| ensures objects[i].path in StandingFrom({}, objects) {
        StandsInOrder({}, objects, i);
      }
    } else if DistinctPaths(objects) {
      var i, j :| 0 <= i < j < |objects| && objects[i].path == Temp(objects[j].path);
      TakenAway({}, objects, objects[i].path, j);
    }
  }

  /** The order matters: an unforced pull of a file and, after it, of the file whose download name it has succeeds
      and leaves the first one missing. */
  lemma TempNameMisleads(lib: Library, x: Bytes)
    ensures
      var objects := [ObjectOf(lib, "p.orbit-download", x), ObjectOf(lib, "p", x)];
      var r := AllPulled(lib, map[lib.hash(x) := x], Disk(map[], {}), objects, false, [NO_FAULTS, NO_FAULTS]);
      r.error == None && objects[0].path !in r.disk.files && Present(lib, r.disk, objects[1])
  {
    var store := map[lib.hash(x) := x];
    var first, second := ObjectOf(lib, "p.orbit-download", x), ObjectOf(lib, "p", x);
    assert Temp("p") == "p.orbit-download" && |Temp(first.path)| > |first.path|;
    var one := OnePulled(lib, store, Disk(map[], {}), first, false, NO_FAULTS);
    assert one.error == None && one.disk == Disk(map[first.path := x], {});
    var two := OnePulled(lib, store, one.disk, second, false, NO_FAULTS);
    assert two.error == None && two.disk.files.Keys == {"p"} && two.disk.files["p"] == x;
    PulledPair(lib, store, Disk(map[], {}), first, second, false);
  }

  lemma PulledPair(lib: Library, store: Store, disk: Disk, a: Object, b: Object, force: bool)
    ensures
      var one := OnePulled(lib, store, disk, a, force, NO_FAULTS);
      var two := OnePulled(lib, store, one.disk, b, force, NO_FAULTS);
      AllPulled(lib, store, disk, [a, b], force, [NO_FAULTS, NO_FAULTS]) ==
        Pulled(two.disk, First(one.error, two.error))
  {
    var one := OnePulled(lib, store, disk, a, force, NO_FAULTS);
    assert [a, b][1..] == [b] && [NO_FAULTS, NO_FAULTS][1..] == [NO_FAULTS] && [b][1..] == [] && [NO_FAULTS][1..] == [];
    var two := OnePulled(lib, store, one.disk, b, force, NO_FAULTS);
    assert AllPulled(lib, store, two.disk, [], force, []).error == None;
    assert AllPulled(lib, store, one.disk, [b], force, [NO_FAULTS]) == two;
  }

  /** One hash a path matters too: when an index lists one path with two hashes, a forced pull can succeed and
      leave a file that does not fit its first line. */
  lemma SharedPathMisleads(lib: Library, x: Bytes, y: Bytes)
    requires lib.fold(lib.hash(x)) != lib.fold(lib.hash(y))
    ensures
      var objects := [ObjectOf(lib, "p", x), ObjectOf(lib, "p", y)];
      var store := map[lib.hash(x) := x, lib.hash(y) := y];
      var r := AllPulled(lib, store, Disk(map[], {}), objects, true, [NO_FAULTS, NO_FAULTS]);
      r.error == None && !Present(lib, r.disk, objects[0])
  {
    var first, second := ObjectOf(lib, "p", x), ObjectOf(lib, "p", y);
    var store := map[lib.hash(x) := x, lib.hash(y) := y];
    var one := OnePulled(lib, store, Disk(map[], {}), first, true, NO_FAULTS);
    var two := OnePulled(lib, store, one.disk, second, true, NO_FAULTS);
    assert lib.hash(x) != lib.hash(y);
    assert one.error == None && one.disk.files["p"] == x;
    assert two.error == None && two.disk.files["p"] == y;
    PulledPair(lib, store, Disk(map[], {}), first, second, true);
  }

  // ----- several repositories

  function FaultsOf(repos: seq<Repository>): (faults: seq<Faults>)
    requires Answered(repos)
    ensures |faults| == |Objects(repos)|
    decreases |repos|
  {
    if repos == [] then []
    else
      AnsweredRest(repos);
      (if repos[0].Indexed? then repos[0].faults else []) + FaultsOf(repos[1..])
  }

  lemma {:induction false} AllPulledConcat(lib: Library, store: Store, disk: Disk, a: seq<Object>, fa: seq<Faults>,
                                           b: seq<Object>, fb: seq<Faults>, force: bool)
    requires |fa| == |a| && |fb| == |b|
    ensures
      var one := AllPulled(lib, store, disk, a, force, fa);
      var two := AllPulled(lib, store, one.disk, b, force, fb);
      AllPulled(lib, store, disk, a + b, force, fa + fb) == Pulled(two.disk, First(one.error, two.error))
    decreases |a|
  {
    if a == [] {
      assert a + b == b && fa + fb == fb;
    } else {
      assert (a + b)[1..] == a[1..] + b && (fa + fb)[1..] == fa[1..] + fb;
      AllPulledConcat(lib, store, OnePulled(lib, store, disk, a[0], force, fa[0]).disk, a[1..], fa[1..], b, fb, force);
    }
  }

  /** A pull of several repositories without an error pulled all their lines, one after another. */
  lemma {:induction false} PulledFlat(lib: Library, store: Store, disk: Disk, repos: seq<Repository>, force: bool,
                                      first: Option<PullError>)
    requires Answered(repos) && PulledFrom(lib, store, disk, repos, force, first).error == None
    ensures first == None
    ensures AllPulled(lib, store, disk, Objects(repos), force, FaultsOf(repos)) ==
      PulledFrom(lib, store, disk, repos, force, first)
    decreases |repos|
  {
    if repos != [] {
      AnsweredRest(repos);
      var rest := repos[1..];
      match repos[0] {
        case StatError =>
        case NoManifest =>
          assert [] + Objects(rest) == Objects(rest) && [] + FaultsOf(rest) == FaultsOf(rest);
          PulledFlat(lib, store, disk, rest, force, first);
        case Unreadable =>
          PulledFlat(lib, store, disk, rest, force, First(first, Some(NoIndex)));
        case Indexed(objects, faults) =>
          var one := AllPulled(lib, store, disk, objects, force, faults);
          PulledFlat(lib, store, one.disk, rest, force, First(first, one.error));
          AllPulledConcat(lib, store, disk, objects, faults, Objects(rest), FaultsOf(rest), force);
      }
    }
  }

  /** A whole pull without an error leaves every indexed file fitting its line, whatever the store holds, when all
      lines together are sound. */
  lemma PullAllPresent(lib: Library, store: Store, disk: Disk, repos: seq<Repository>, force: bool)
    requires Answered(repos) && Sound(lib, Objects(repos), force)
    requires ReposPulled(lib, store, disk, repos, force).error == None
    ensures AllPresent(lib, ReposPulled(lib, store, disk, repos, force).disk, Objects(repos))
  {
    PulledFlat(lib, store, disk, repos, force, None);
    SoundAllPresent(lib, store, disk, Objects(repos), force, FaultsOf(repos));
  }

  /** The repositories with these indexes. */
  predicate HasIndexes(repos: seq<Repository>, indexes: seq<seq<Object>>) {
    && |repos| == |indexes|
    && forall i :: 0 <= i < |repos| ==> repos[i].Indexed? && repos[i].objects == indexes[i]
  }

  function Flat(indexes: seq<seq<Object>>): seq<Object> {
    if indexes == [] then [] else indexes[0] + Flat(indexes[1..])
  }

  lemma {:induction false} FlatIs(repos: seq<Repository>, indexes: seq<seq<Object>>)
    requires HasIndexes(repos, indexes)
    ensures Objects(repos) == Flat(indexes)
    decreases |repos|
  {
    if repos != [] {
      FlatIs(repos[1..], indexes[1..]);
    }
  }

  /** The repositories with these indexes where no call fails. */
  function NoFailures(indexes: seq<seq<Object>>): (repos: seq<Repository>)
    ensures HasIndexes(repos, indexes) && Answered(repos)
    ensures forall i :: 0 <= i < |repos| ==> repos[i].faults == Perfect(|indexes[i]|)
  {
    seq(|indexes|, i requires 0 <= i < |indexes| => Indexed(indexes[i], Perfect(|indexes[i]|)))
  }

  lemma {:induction false} NoFailuresFlat(lib: Library, store: Store, disk: Disk, indexes: seq<seq<Object>>,
                                          force: bool, first: Option<PullError>)
    ensures
      var r := AllPulled(lib, store, disk, Flat(indexes), force, Perfect(|Flat(indexes)|));
      PulledFrom(lib, store, disk, NoFailures(indexes), force, first) == Pulled(r.disk, First(first, r.error))
    decreases |indexes|
  {
    if indexes != [] {
      var objects, rest := indexes[0], indexes[1..];
      var one := AllPulled(lib, store, disk, objects, force, Perfect(|objects|));
      assert NoFailures(indexes)[1..] == NoFailures(rest);
      NoFailuresFlat(lib, store, one.disk, rest, force, First(first, one.error));
      AllPulledConcat(lib, store, disk, objects, Perfect(|objects|), Flat(rest), Perfect(|Flat(rest)|), force);
      assert Perfect(|objects|) + Perfect(|Flat(rest)|) == Perfect(|Flat(indexes)|);
    }
  }

  /** For a store that holds what the indexes list: every pull of them without an error, from any disk and with any
      calls failing, leaves every indexed file fitting all its lines, if and only if the lines are sound. */
  lemma AllPresentIff(lib: Library, store: Store, indexes: seq<seq<Object>>, force: bool)
    requires Serves(lib, store, Flat(indexes))
    ensures
      (forall disk, repos ::
         Answered(repos) && HasIndexes(repos, indexes) && ReposPulled(lib, store, disk, repos, force).error == None ==>
           AllPresent(lib, ReposPulled(lib, store, disk, repos, force).disk, Flat(indexes)))
      <==> Sound(lib, Flat(indexes), force)
  {
    if Sound(lib, Flat(indexes), force) {
      forall disk, repos |
        Answered(repos) && HasIndexes(repos, indexes) && ReposPulled(lib, store, disk, repos, force).error == None
        ensures AllPresent(lib, ReposPulled(lib, store, disk, repos, force).disk, Flat(indexes))
      {
        FlatIs(repos, indexes);
        PullAllPresent(lib, store, disk, repos, force);
      }
    } else {
      NotSoundMisses(lib, store, Flat(indexes), force);
      var repos := NoFailures(indexes);
      NoFailuresFlat(lib, store, Disk(map[], {}), indexes, force, None);
      assert !AllPresent(lib, ReposPulled(lib, store, Disk(map[], {}), repos, force).disk, Flat(indexes));
    }
  }

  // ----- status

  datatype FileState = FileOk | FileMissing | FileMismatch

  /** The calls that fail while the status of one object is taken. */
  datatype StatusFaults = StatusFaults(stat: bool, hash: bool)

  function StateOf(lib: Library, disk: Disk, o: Object, f: StatusFaults): FileState {
    if f.stat then FileMismatch
    else if o.path !in disk.files then FileMissing
    else if f.hash then FileMismatch
    else if Fits(lib, disk.files[o.path], o.sha256) then FileOk
    else FileMismatch
  }

  function Problems(lib: Library, disk: Disk, objects: seq<Object>, faults: seq<StatusFaults>): nat
    requires |faults| == |objects|
    decreases |objects|
  {
    if objects == [] then 0
    else
      Problems(lib, disk, objects[..|objects| - 1], faults[..|objects| - 1])
      + if StateOf(lib, disk, objects[|objects| - 1], faults[|objects| - 1]) == FileOk then 0 else 1
  }

  /** A file that is not there is missing; one that is there is fine if it fits, and does not match if it does not or if
      that cannot be told. */
  lemma StateMeans(lib: Library, disk: Disk, o: Object, f: StatusFaults)
    ensures StateOf(lib, disk, o, f) == FileMissing <==> !f.stat && o.path !in disk.files
    ensures StateOf(lib, disk, o, f) == FileOk <==>
      && !f.stat && !f.hash && o.path in disk.files
      && lib.fold(lib.hash(disk.files[o.path])) == lib.fold(o.sha256)
  {
  }

  /** The problems counted are the lines that are not fine. */
  lemma {:induction false} ProblemsCounted(lib: Library, disk: Disk, objects: seq<Object>, faults: seq<StatusFaults>)
    requires |faults| == |objects|
    ensures
      var bad := set i | 0 <= i < |objects| && StateOf(lib, disk, objects[i], faults[i]) != FileOk;
      Problems(lib, disk, objects, faults) == |bad|
    decreases |objects|
  {
    var bad := set i | 0 <= i < |objects| && StateOf(lib, disk, objects[i], faults[i]) != FileOk;
    if objects != [] {
      var n := |objects| - 1;
      var less, fewer := objects[..n], faults[..n];
      var some := set i | 0 <= i < n && StateOf(lib, disk, less[i], fewer[i]) != FileOk;
      ProblemsCounted(lib, disk, less, fewer);
      assert bad == some + if StateOf(lib, disk, objects[n], faults[n]) != FileOk then {n} else {};
    }
  }

  /** Status reports no problem exactly when no call fails on a file that is there, and every indexed file is
      there and fits. */
  lemma {:induction false} NoProblemsIff(lib: Library, disk: Disk, objects: seq<Object>, faults: seq<StatusFaults>)
    requires |faults| == |objects|
    ensures Problems(lib, disk, objects, faults) == 0 <==>
      AllPresent(lib, disk, objects) && forall i :: 0 <= i < |faults| ==> !faults[i].stat && !faults[i].hash
    decreases |objects|
  {
    if objects != [] {
      var n := |objects| - 1;
      NoProblemsIff(lib, disk, objects[..n], faults[..n]);
      assert forall i :: 0 <= i < n ==> objects[..n][i] == objects[i] && faults[..n][i] == faults[i];
    }
  }

  /** A pull without an error is followed by a status without a problem, when all lines together are sound. */
  lemma PullThenStatus(
      lib: Library, store: Store, disk: Disk, repos: seq<Repository>, force: bool, faults: seq<StatusFaults>)
    requires Answered(repos) && Sound(lib, Objects(repos), force)
    requires ReposPulled(lib, store, disk, repos, force).error == None
    requires |faults| == |Objects(repos)| && forall i :: 0 <= i < |faults| ==> !faults[i].stat && !faults[i].hash
    ensures Problems(lib, ReposPulled(lib, store, disk, repos, force).disk, Objects(repos), faults) == 0
  {
    PullAllPresent(lib, store, disk, repos, force);
    NoProblemsIff(lib, ReposPulled(lib, store, disk, repos, force).disk, Objects(repos), faults);
  }

  // ----- the index

  function FindIn(objects: seq<Object>, path: string): Option<Object> {
    if objects == [] then None
    else if objects[0].path == path then Some(objects[0])
    else FindIn(objects[1..], path)
  }

  /** The index with obj in the place of the first line for its path, or at the end. */
  function Upserted(objects: seq<Object>, obj: Object): seq<Object> {
    if objects == [] then [obj]
    else if objects[0].path == obj.path then [obj] + objects[1..]
    else [objects[0]] + Upserted(objects[1..], obj)
  }

  lemma {:induction false} FindAfterUpsert(objects: seq<Object>, obj: Object, path: string)
    ensures FindIn(Upserted(objects, obj), path) == if path == obj.path then Some(obj) else FindIn(objects, path)
  {
    if objects != [] && objects[0].path != obj.path {
      FindAfterUpsert(objects[1..], obj, path);
    }
  }

  predicate DistinctPaths(objects: seq<Object>) {
    forall i, j :: 0 <= i < j < |objects| ==> objects[i].path != objects[j].path
  }

  lemma {:induction false} UpsertedPaths(objects: seq<Object>, obj: Object)
    ensures forall o :: o in Upserted(objects, obj) ==> o == obj || o in objects
  {
    if objects != [] && objects[0].path != obj.path {
      UpsertedPaths(objects[1..], obj);
    }
  }

  /** Upsert keeps the paths of an index distinct. */
  lemma {:induction false} UpsertKeepsDistinct(objects: seq<Object>, obj: Object)
    requires DistinctPaths(objects)
    ensures DistinctPaths(Upserted(objects, obj))
  {
    if objects != [] {
      var rest := objects[1..];
      if objects[0].path != obj.path {
        UpsertKeepsDistinct(rest, obj);
        UpsertedPaths(rest, obj);
        var tail := Upserted(rest, obj);
        forall j | 0 <= j < |tail| ensures tail[j].path != objects[0].path {
          assert tail[j] in tail;
        }
      }
    }
  }

  lemma {:induction false} UpsertAt(objects: seq<Object>, obj: Object, i: nat)
    requires i <= |objects| && forall j :: 0 <= j < i ==> objects[j].path != obj.path
    requires i < |objects| ==> objects[i].path == obj.path
    ensures Upserted(objects, obj) == if i < |objects| then objects[i := obj] else objects + [obj]
    decreases |objects|
  {
    if objects != [] && i > 0 {
      UpsertAt(objects[1..], obj, i - 1);
      assert objects == [objects[0]] + objects[1..];
    }
  }

  class Manifest {
    var version: int
    var objects: seq<Object>

    constructor ()
      ensures version == 1 && objects == []
    {
      version, objects := 1, [];
    }

    method Find(path: string) returns (r: Option<Object>)
      ensures r == FindIn(objects, path)
    {
      for i := 0 to |objects|
        invariant FindIn(objects, path) == FindIn(objects[i..], path)
      {
        assert objects[i..][1..] == objects[i + 1..];
        if objects[i].path == path {
          return Some(objects[i]);
        }
      }
      return None;
    }

    method Upsert(obj: Object)
      modifies this
      ensures objects == Upserted(old(objects), obj)
      ensures version == if old(version) == 0 then 1 else old(version)
    {
      if version == 0 {
        version := 1;
      }
      for i := 0 to |objects|
        invariant objects == old(objects)
        invariant forall j :: 0 <= j < i ==> objects[j].path != obj.path
      {
        if objects[i].path == obj.path {
          UpsertAt(objects, obj, i);
          objects := objects[i := obj];
          return;
        }
      }
      UpsertAt(objects, obj, |objects|);
      objects := objects + [obj];
    }
  }

  // ----- the service

  /** The in-memory object store. */
  class MemStore {
    var objects: Store
    var puts: nat

    constructor ()
      ensures objects == map[] && puts == 0
    {
      objects, puts := map[], 0;
    }

    method Put(sha256: string, data: Bytes)
      modifies this
      ensures objects == old(objects)[sha256 := data] && puts == old(puts) + 1
    {
      objects := objects[sha256 := data];
      puts := puts + 1;
    }

    method Get(sha256: string) returns (r: Option<Bytes>)
      ensures r == if sha256 in objects then Some(objects[sha256]) else None
    {
      return if sha256 in objects then Some(objects[sha256]) else None;
    }
  }

  class Workspace {
    var files: map<string, Bytes>
    var dirs: set<string>

    constructor (disk: Disk)
      ensures Value() == disk
    {
      files, dirs := disk.files, disk.dirs;
    }

    function Value(): Disk
      reads this
    {
      Disk(files, dirs)
    }
  }

  class Service {
    const fs: Workspace
    const store: MemStore
    const lib: Library

    constructor (fs: Workspace, store: MemStore, lib: Library)
      ensures this.fs == fs && this.store == store && this.lib == lib
    {
      this.fs, this.store, this.lib := fs, store, lib;
    }

    method PullOne(o: Object, force: bool, f: Faults) returns (error: Option<PullError>)
      modifies fs
      ensures Pulled(fs.Value(), error) == OnePulled(lib, store.objects, old(fs.Value()), o, force, f)
    {
      if f.stat {
        return Some(StatFailed);
      }
      if o.path in fs.files {
        if f.hash {
          return Some(HashFailed);
        }
        if Fits(lib, fs.files[o.path], o.sha256) {
          return None;
        }
        if !force {
          return Some(HashMismatch);
        }
      }
      var data := store.Get(o.sha256);
      if f.get || data.None? {
        return Some(NotInStore);
      }
      if f.read {
        return Some(ReadFailed);
      }
      if !Fits(lib, data.value, o.sha256) {
        return Some(BadDownload);
      }
      error := Download(o.path, data.value, f);
    }

    /** The last lines of pullOne: make the directory, write the temporary file, rename it. */
    method Download(path: string, data: Bytes, f: Faults) returns (error: Option<PullError>)
      modifies fs
      ensures Pulled(fs.Value(), error) == Replace(old(fs.Value()), path, data, f)
    {
      fs.dirs := fs.dirs + (f.newDirs - fs.files.Keys);
      if f.mkdir {
        return Some(MkdirFailed);
      }
      var tmp := Temp(path);
      if tmp in fs.dirs {
        return Some(WriteFailed);
      }
      if f.write {
        if f.left.Some? {
          fs.files := fs.files[tmp := f.left.value];
        }
        return Some(WriteFailed);
      }
      var before := fs.files;
      fs.files := fs.files[tmp := data];
      if f.rename || path in fs.dirs {
        if !f.remove {
          fs.files := fs.files - {tmp};
          assert fs.files == before - {tmp};
        }
        return Some(RenameFailed);
      }
      fs.files := (fs.files - {tmp})[path := data];
      assert fs.files == (before - {tmp})[path := data];
      return None;
    }

    /** pullRepo: goes on after a failure and returns the first. */
    method PullRepo(objects: seq<Object>, force: bool, faults: seq<Faults>) returns (first: Option<PullError>)
      requires |faults| == |objects|
      modifies fs
      ensures Pulled(fs.Value(), first) == AllPulled(lib, store.objects, old(fs.Value()), objects, force, faults)
    {
      first := None;
      ghost var all := AllPulled(lib, store.objects, fs.Value(), objects, force, faults);
      for i := 0 to |objects|
        invariant
          var rest := AllPulled(lib, store.objects, fs.Value(), objects[i..], force, faults[i..]);
          all == Pulled(rest.disk, First(first, rest.error))
      {
        assert objects[i..][1..] == objects[i + 1..] && faults[i..][1..] == faults[i + 1..];
        var err := PullOne(objects[i], force, faults[i]);
        if first.None? {
          first := err;
        }
      }
    }

    /** Pull; repositories are the ones with an index. */
    method Pull(repos: seq<Repository>, force: bool) returns (first: Option<PullError>, repositories: seq<nat>)
      requires Answered(repos)
      modifies fs
      ensures Pulled(fs.Value(), first) == ReposPulled(lib, store.objects, old(fs.Value()), repos, force)
      ensures repositories == WithIndex(repos, 0)
    {
      first, repositories := None, [];
      ghost var all := ReposPulled(lib, store.objects, fs.Value(), repos, force);
      for i := 0 to |repos|
        invariant Answered(repos[i..]) && all == PulledFrom(lib, store.objects, fs.Value(), repos[i..], force, first)
        invariant WithIndex(repos, 0) == repositories + WithIndex(repos, i)
      {
        assert repos[i..][0] == repos[i] && repos[i..][1..] == repos[i + 1..];
        AnsweredRest(repos[i..]);
        if repos[i].StatError? {
          return Some(NoIndex), repositories;
        }
        WithIndexNext(repos, i, repositories);
        if repos[i].NoManifest? {
          continue;
        }
        repositories := repositories + [i];
        var err := Some(NoIndex);
        if repos[i].Indexed? {
          err := PullRepo(repos[i].objects, force, repos[i].faults);
        }
        first := First(first, err);
      }
    }

    /** statusRepo, and the count Status keeps of what is not in order. */
    method StatusRepo(objects: seq<Object>, faults: seq<StatusFaults>) returns (states: seq<FileState>, problems: nat)
      requires |faults| == |objects|
      ensures |states| == |objects|
      ensures forall i :: 0 <= i < |states| ==> states[i] == StateOf(lib, fs.Value(), objects[i], faults[i])
      ensures problems == Problems(lib, fs.Value(), objects, faults)
    {
      states, problems := [], 0;
      for i := 0 to |objects|
        invariant |states| == i
        invariant forall j :: 0 <= j < i ==> states[j] == StateOf(lib, fs.Value(), objects[j], faults[j])
        invariant problems == Problems(lib, fs.Value(), objects[..i], faults[..i])
      {
        assert objects[..i + 1][..i] == objects[..i] && faults[..i + 1][..i] == faults[..i];
        var state: FileState;
        if faults[i].stat {
          state := FileMismatch;
        } else if objects[i].path !in fs.files {
          state := FileMissing;
        } else if faults[i].hash || !Fits(lib, fs.files[objects[i].path], objects[i].sha256) {
          state := FileMismatch;
        } else {
          state := FileOk;
        }
        states := states + [state];
        if state != FileOk {
          problems := problems + 1;
        }
      }
      assert objects[..|objects|] == objects && faults[..|faults|] == faults;
    }

    /** Add, up to the .gitignore; m is the index it loads and saves. */
    method Add(path: string, m: Manifest, ignore: Gitignore.IgnoreFile, f: AddFaults) returns (ok: bool)
      modifies store, m, ignore
      ensures
        var a := Added(lib, old(store.objects), old(fs.Value()), old(m.objects), ignore.header, old(ignore.text),
                       path, f);
        && ok == a.ok && store.objects == a.store && m.objects == a.objects && ignore.text == a.ignore
    {
      if path !in fs.files || f.hash {
        return false;
      }
      var data := fs.files[path];
      var sum := lib.hash(data);
      if f.lookup {
        return false;
      }
      if sum !in store.objects {
        if f.put {
          return false;
        }
        store.Put(sum, data);
      }
      if f.manifest {
        return false;
      }
      m.Upsert(Object(path, sum, |data|, lib.contentType(path)));
      ok := ignore.Ensure(path, f.ignore);
    }
  }

  // ----- add on one machine, pull on another

  datatype AddFaults = AddFaults(hash: bool, lookup: bool, put: bool, manifest: bool, ignore: Gitignore.Faults)

  datatype AddResult = AddResult(ok: bool, store: Store, objects: seq<Object>, ignore: Option<string>)

  function Added(lib: Library, store: Store, disk: Disk, objects: seq<Object>, header: Gitignore.Comment,
                 ignore: Option<string>, path: string, f: AddFaults): AddResult {
    if path !in disk.files || f.hash || f.lookup then AddResult(false, store, objects, ignore)
    else
      var data := disk.files[path];
      var sum := lib.hash(data);
      if sum !in store && f.put then AddResult(false, store, objects, ignore)
      else
        var uploaded := if sum in store then store else store[sum := data];
        if f.manifest then AddResult(false, uploaded, objects, ignore)
        else
          var e := Gitignore.EnsuredIn(header, ignore, path, f.ignore);
          AddResult(e.ok, uploaded, Upserted(objects, ObjectOf(lib, path, data)), e.text)
  }

  /** What adding leaves behind, on any outcome: nothing when the file cannot be hashed, looked up or stored; the file
      in the store under its hash, unless it was there, when the index cannot be saved; and otherwise its line in the
      index too, and success when the ignore file could be brought up to date. */
  lemma AddMeans(lib: Library, store: Store, disk: Disk, objects: seq<Object>, header: Gitignore.Comment,
                 ignore: Option<string>, path: string, f: AddFaults)
    ensures
      var a := Added(lib, store, disk, objects, header, ignore, path, f);
      if || path !in disk.files || f.hash || f.lookup
         || (f.put && lib.hash(disk.files[path]) !in store)
      then a == AddResult(false, store, objects, ignore)
      else
        var data := disk.files[path];
        && a.store == (if lib.hash(data) in store then store else store[lib.hash(data) := data])
        && if f.manifest then !a.ok && a.objects == objects && a.ignore == ignore
           else
             && FindIn(a.objects, path) == Some(Object(path, lib.hash(data), |data|, lib.contentType(path)))
             && (forall p :: p != path ==> FindIn(a.objects, p) == FindIn(objects, p))
             && Gitignore.Ensured(a.ok, a.ignore) == Gitignore.EnsuredIn(header, ignore, path, f.ignore)
  {
    if path in disk.files {
      forall p ensures FindIn(Upserted(objects, ObjectOf(lib, path, disk.files[path])), p) ==
        if p == path then Some(ObjectOf(lib, path, disk.files[path])) else FindIn(objects, p)
      {
        FindAfterUpsert(objects, ObjectOf(lib, path, disk.files[path]), p);
      }
    }
  }

  /** FindIn is the first line for the path. */
  lemma {:induction false} FindsFirst(objects: seq<Object>, path: string)
    ensures
      match FindIn(objects, path)
      case None => forall i :: 0 <= i < |objects| ==> objects[i].path != path
      case Some(o) =>
        exists i :: 0 <= i < |objects| && o == objects[i] && o.path == path
          && forall j :: 0 <= j < i ==> objects[j].path != path
  {
    if objects != [] && objects[0].path != path {
      var rest := objects[1..];
      FindsFirst(rest, path);
      assert forall j :: 0 < j < |objects| ==> objects[j] == rest[j - 1];
      if FindIn(rest, path).Some? {
        var i :| 0 <= i < |rest| && FindIn(rest, path).value == rest[i] && rest[i].path == path
          && forall j :: 0 <= j < i ==> rest[j].path != path;
        assert objects[i + 1] == rest[i];
      }
    }
  }

  /** Every object of the store hashes to its name. */
  ghost predicate Honest(lib: Library, store: Store) {
    forall k :: k in store ==> Fits(lib, store[k], k)
  }

  /** Adding a file keeps an honest store honest, on any outcome. After it succeeded, a workspace that lacks the
      file finds it in the index, and pulls it: the file then hashes as the added one did. */
  lemma AddThenPull(lib: Library, store: Store, disk: Disk, objects: seq<Object>, header: Gitignore.Comment,
                    ignore: Option<string>, path: string, f: AddFaults, other: Disk, force: bool)
    requires Honest(lib, store)
    requires path !in other.files && path !in other.dirs && Temp(path) !in other.dirs
    ensures
      var a := Added(lib, store, disk, objects, header, ignore, path, f);
      && Honest(lib, a.store)
      && (a.ok ==>
           && path in disk.files
           && var data := disk.files[path];
           && FindIn(a.objects, path) == Some(ObjectOf(lib, path, data))
           && var r := OnePulled(lib, a.store, other, ObjectOf(lib, path, data), force, NO_FAULTS);
           && r.error == None && path in r.disk.files
           && lib.fold(lib.hash(r.disk.files[path])) == lib.fold(lib.hash(data)))
  {
    var a := Added(lib, store, disk, objects, header, ignore, path, f);
    if a.ok {
      FindAfterUpsert(objects, ObjectOf(lib, path, disk.files[path]), path);
    }
  }

  /** After adding succeeded the ignore file lists the file if and only if a line of it can stand for that path. */
  lemma AddIgnoresIff(lib: Library, store: Store, disk: Disk, objects: seq<Object>, header: Gitignore.Comment,
                      ignore: Option<string>, path: string, f: AddFaults)
    requires Added(lib, store, disk, objects, header, ignore, path, f).ok
    ensures
      var after := Added(lib, store, disk, objects, header, ignore, path, f).ignore;
      after.Some? && (Gitignore.Lists(after.value, path) <==> Gitignore.Listable(path))
  {
    Gitignore.EnsuredLists(header, ignore, path, f.ignore, path);
    Gitignore.IgnoredIff(header, ignore, path, f.ignore);
  }
}
