/** What a container sees of an image's layers, and what each layer holds that
    a later one hides. */
module ImageLayers {
  import opened Basics
  import opened Totals

  datatype Name = Name(text: string)

  /** A path of the archive, as the names it is made of. */
  datatype Path = Path(names: seq<Name>)

  /** The path itself, or a folder above it. */
  function Above(path: Path, end: nat): Path
    requires end <= |path.names|
  {
    Path(path.names[..end])
  }

  datatype Layer = Layer(files: map<Path, nat>, whiteouts: set<Path>, opaques: set<Path>)

  // ----------------------------------------------------- one layer's archive

  /** What a member of an archive is: a regular file, a folder, or anything
      else, such as a link. */
  datatype Kind = File(size: nat) | Folder | Other

  datatype Member = Member(path: Path, kind: Kind)

  const WHITEOUT := ".wh."
  const OPAQUE := Name(".wh..wh..opq")

  /** The last name of a path, blank for the archive's own root. */
  function Last(path: Path): Name
  {
    if path.names == [] then Name("") else path.names[|path.names| - 1]
  }

  function Parent(path: Path): Path
  {
    if path.names == [] then path else Above(path, |path.names| - 1)
  }

  predicate Marks(path: Path)
  {
    WHITEOUT <= Last(path).text
  }

  function Hides(path: Path): Path
    requires Marks(path)
  {
    Path(Parent(path).names + [Name(Last(path).text[|WHITEOUT|..])])
  }

  /** The files an archive's members leave: a path named again is the later one. */
  function FilesOf(members: seq<Member>): map<Path, nat>
  {
    if members == [] then map[]
    else
      var member := members[|members| - 1];
      var before := FilesOf(members[..|members| - 1]);
      if member.kind.File? && !Marks(member.path) then before[member.path := member.kind.size] else before
  }

  predicate IsFile(member: Member)
  {
    member.kind.File? && !Marks(member.path)
  }

  /** A path holds a file exactly when some member is one there, and the file is
      the last such member. */
  lemma {:induction false} FilesAre(members: seq<Member>, path: Path)
    ensures path in FilesOf(members) <==> exists i :: 0 <= i < |members| && members[i].path == path && IsFile(members[i])
    ensures forall i ::
              0 <= i < |members| && members[i].path == path && IsFile(members[i])
              && (forall j :: i < j < |members| ==> !(members[j].path == path && IsFile(members[j]))) ==>
                FilesOf(members)[path] == members[i].kind.size
  {
    hide Marks;
    if members != [] {
      var n := |members| - 1;
      FilesAre(members[..n], path);
      if exists i :: 0 <= i < n && members[i].path == path && IsFile(members[i]) {
        var i :| 0 <= i < n && members[i].path == path && IsFile(members[i]);
        assert members[..n][i] == members[i];
      }
    }
  }

  /** The members that are files, each by its place in the archive. */
  function Copies(members: seq<Member>): map<nat, nat>
  {
    map i: nat | i < |members| && IsFile(members[i]) :: members[i].kind.size
  }

  lemma CopiesMore(members: seq<Member>, i: nat)
    requires i < |members|
    ensures Copies(members[..i + 1]) == if IsFile(members[i]) then Copies(members[..i])[i := members[i].kind.size] else Copies(members[..i])
    ensures i !in Copies(members[..i])
  {
    hide IsFile;
  }

  /** The bytes of members a later member of the same path replaces. */
  function Replaced(members: seq<Member>): nat
  {
    if members == [] then 0
    else
      var member := members[|members| - 1];
      var before := FilesOf(members[..|members| - 1]);
      Replaced(members[..|members| - 1])
      + if member.kind.File? && !Marks(member.path) && member.path in before then before[member.path] else 0
  }

  function OpaquesOf(members: seq<Member>): set<Path>
  {
    set member | member in members && Last(member.path) == OPAQUE :: Parent(member.path)
  }

  function WhiteoutsOf(members: seq<Member>): set<Path>
  {
    set member | member in members && Marks(member.path) && Last(member.path) != OPAQUE :: Hides(member.path)
  }

  /** What a layer's archive is read as. */
  function Read(members: seq<Member>): Layer
  {
    Layer(FilesOf(members), WhiteoutsOf(members), OpaquesOf(members))
  }

  lemma OneMore(members: seq<Member>, i: nat)
    requires i < |members|
    ensures var member := members[i];
            && OpaquesOf(members[..i + 1]) == OpaquesOf(members[..i]) + (if Last(member.path) == OPAQUE then {Parent(member.path)} else {})
            && WhiteoutsOf(members[..i + 1]) == WhiteoutsOf(members[..i])
                 + (if Marks(member.path) && Last(member.path) != OPAQUE then {Hides(member.path)} else {})
  {
    assert members[..i + 1] == members[..i] + [members[i]];
  }

  /** Every copy is a file's or was replaced. */
  lemma {:induction false} CopiesAreFiles(members: seq<Member>)
    ensures Sum(Copies(members)) == Sum(FilesOf(members)) + Replaced(members)
  {
    if members == [] {
      SumOfNone<nat>();
      SumOfNone<Path>();
      assert Copies([]) == map[];
    } else {
      var n: nat := |members| - 1;
      var member := members[n];
      CopiesAreFiles(members[..n]);
      CopiesMore(members, n);
      assert members[..n + 1] == members;
      if IsFile(member) {
        SumAdds<nat>(Copies(members[..n]), n, member.kind.size);
        SumAdds(FilesOf(members[..n]), member.path, member.kind.size);
        assert FilesOf(members) == FilesOf(members[..n])[member.path := member.kind.size];
        assert Replaced(members) == Replaced(members[..n]) + if member.path in FilesOf(members[..n]) then FilesOf(members[..n])[member.path] else 0;
        assert Copies(members) == Copies(members[..n])[n := member.kind.size];
      } else {
        assert FilesOf(members) == FilesOf(members[..n]);
        assert Copies(members) == Copies(members[..n]);
      }
    }
  }

  method ReadLayer(members: seq<Member>) returns (layer: Layer, size: nat)
    ensures layer == Read(members)
    // The size a layer reports counts every copy of a path its archive repeats,
    // though the layer holds the last: it is the files' own exactly when what
    // a repeat replaces is empty.
    ensures size == Sum(Copies(members)) == Sum(layer.files) + Replaced(members)
    ensures size == Sum(layer.files) <==> Replaced(members) == 0
  {
    layer, size := Layer(map[], {}, {}), 0;
    SumOfNone<Path>();
    assert members[..0] == [];
    for i := 0 to |members|
      invariant layer == Read(members[..i])
      invariant size == Sum(layer.files) + Replaced(members[..i])
    {
      var member := members[i];
      assert members[..i + 1][..i] == members[..i];
      OneMore(members, i);
      hide OpaquesOf, WhiteoutsOf;
      if Last(member.path) == OPAQUE {
        OpaqueMarks(member.path);
        layer := layer.(opaques := layer.opaques + {Parent(member.path)});
      } else if Marks(member.path) {
        layer := layer.(whiteouts := layer.whiteouts + {Hides(member.path)});
      } else if member.kind.File? {
        SumAdds(layer.files, member.path, member.kind.size);
        layer := layer.(files := layer.files[member.path := member.kind.size]);
        size := size + member.kind.size;
      }
    }
    assert members[..|members|] == members;
    CopiesAreFiles(members);
  }

  lemma OpaqueMarks(path: Path)
    requires Last(path) == OPAQUE
    ensures Marks(path)
  {
    assert OPAQUE.text[..4] == WHITEOUT;
  }

  // ------------------------------------------------------------ bottom up

  /** Whether a layer removes a path of the layers below it, by a whiteout at
      any prefix of the path or an opaque marker at a proper one. */
  predicate Removes(layer: Layer, path: Path)
  {
    exists end :: 1 <= end <= |path.names| && (Above(path, end) in layer.whiteouts || (end < |path.names| && Above(path, end) in layer.opaques))
  }

  /** The filesystem after one more layer is laid over it. */
  function Over(below: map<Path, nat>, layer: Layer): map<Path, nat>
  {
    (map path | path in below && !Removes(layer, path) :: below[path]) + layer.files
  }

  /** The filesystem a container sees: every layer laid over the ones below it. */
  function View(layers: seq<Layer>): map<Path, nat>
  {
    if layers == [] then map[] else Over(View(layers[..|layers| - 1]), layers[|layers| - 1])
  }

  ghost predicate RemovedBy(layers: seq<Layer>, path: Path)
  {
    exists i :: 0 <= i < |layers| && Removes(layers[i], path)
  }

  /** What a layer shows through the layers above it. */
  ghost function Through(layer: Layer, above: seq<Layer>): map<Path, nat>
  {
    map path | path in layer.files && path !in View(above) && !RemovedBy(above, path) :: layer.files[path]
  }

  ghost function Hidden(layer: Layer, above: seq<Layer>): map<Path, nat>
  {
    map path | path in layer.files && (path in View(above) || RemovedBy(above, path)) :: layer.files[path]
  }

  lemma RemovedByMore(above: seq<Layer>, top: Layer, path: Path)
    ensures RemovedBy(above + [top], path) <==> RemovedBy(above, path) || Removes(top, path)
  {
    var more := above + [top];
    if RemovedBy(above, path) {
      var i :| 0 <= i < |above| && Removes(above[i], path);
      assert Removes(more[i], path);
    }
    if Removes(top, path) {
      assert Removes(more[|above|], path);
    }
    if RemovedBy(more, path) {
      var i :| 0 <= i < |more| && Removes(more[i], path);
      if i < |above| {
        assert Removes(above[i], path);
      }
    }
  }

  /** One layer slid under the others adds what it shows through them and
      changes nothing they show, though what they show is all that is known of
      them besides what they remove. */
  lemma {:induction false} SlidUnder(layer: Layer, above: seq<Layer>)
    ensures Through(layer, above).Keys !! View(above).Keys
    ensures View([layer] + above) == Through(layer, above) + View(above)
    decreases |above|
  {
    if above == [] {
      assert [layer][..0] == [];
      assert View([layer]) == Over(map[], layer);
      assert Through(layer, above) == layer.files;
      assert [layer] + above == [layer];
    } else {
      var rest, top := above[..|above| - 1], above[|above| - 1];
      SlidUnder(layer, rest);
      assert ([layer] + above)[..|above|] == [layer] + rest;
      assert above == rest + [top];
      assert View(above) == Over(View(rest), top);
      assert View([layer] + above) == Over(View([layer] + rest), top);
      hide View, Through, Over, Removes, RemovedBy;
      SlidThrough(layer, rest, top);
      OverBoth(Through(layer, rest), View(rest), top);
    }
  }

  lemma SlidThrough(layer: Layer, rest: seq<Layer>, top: Layer)
    ensures Through(layer, rest + [top]) == StillThrough(Through(layer, rest), View(rest), top)
  {
    var more := rest + [top];
    assert more[..|rest|] == rest;
    forall path {
      RemovedByMore(rest, top, path);
    }
    assert View(more) == Over(View(rest), top);
    hide View, RemovedBy, Removes;
    assert Through(layer, more).Keys == StillThrough(Through(layer, rest), View(rest), top).Keys;
  }

  /** What is still seen of what was, with one more layer on top. */
  ghost function StillThrough(through: map<Path, nat>, view: map<Path, nat>, top: Layer): map<Path, nat>
  {
    map path | path in through && !Removes(top, path) && path !in Over(view, top) :: through[path]
  }

  lemma OverBoth(through: map<Path, nat>, view: map<Path, nat>, top: Layer)
    requires through.Keys !! view.Keys
    ensures Over(through + view, top) == StillThrough(through, view, top) + Over(view, top)
  {
    hide Removes;
    assert Over(through + view, top).Keys == (StillThrough(through, view, top) + Over(view, top)).Keys;
  }

  // ------------------------------------------------------- over the archives

  /** What an archive last says a path is, if it names it. */
  function LastAt(members: seq<Member>, path: Path): Option<Kind>
  {
    if members == [] || Marks(path) then None
    else
      var member := members[|members| - 1];
      if member.path == path then Some(member.kind) else LastAt(members[..|members| - 1], path)
  }

  /** The files unpacking one archive writes. */
  function Written(members: seq<Member>): map<Path, nat>
  {
    map member | member in members && LastAt(members, member.path).Some? && LastAt(members, member.path).value.File? ::
      member.path := LastAt(members, member.path).value.size
  }

  /** Whether unpacking an archive takes the place of a file below: by anything
      at its path, or by what is no folder at a folder above it. */
  predicate Replaces(members: seq<Member>, path: Path)
  {
    LastAt(members, path).Some?
    || exists end :: 1 <= end < |path.names| && LastAt(members, Above(path, end)).Some? && !LastAt(members, Above(path, end)).value.Folder?
  }

  /** So an archive replaces only what it holds something in place of. */
  lemma ReplacesOnly(members: seq<Member>, path: Path) returns (member: Member)
    requires Replaces(members, path)
    ensures member in members
    ensures member.path == path || (1 <= |member.path.names| < |path.names| && member.path.names <= path.names && !member.kind.Folder?)
  {
    if LastAt(members, path).Some? {
      member := LastMember(members, path);
    } else {
      var end :| 1 <= end < |path.names| && LastAt(members, Above(path, end)).Some? && !LastAt(members, Above(path, end)).value.Folder?;
      member := LastMember(members, Above(path, end));
    }
  }

  lemma {:induction false} LastMember(members: seq<Member>, path: Path) returns (member: Member)
    requires LastAt(members, path).Some?
    ensures member in members && member.path == path && member.kind == LastAt(members, path).value
  {
    member := members[|members| - 1];
    if member.path != path {
      member := LastMember(members[..|members| - 1], path);
    }
  }

  predicate Holds(members: seq<Member>, names: seq<Name>)
  {
    exists member :: member in members && member.path.names == names
  }

  /** What an archive erases of the layers below it, by its markers alone: a path
      at which, or at a folder above which, it holds that name after `.wh.`, or
      above which it holds the opaque marker. The archive's own root is no such
      folder, and the opaque marker is no whiteout. */
  predicate Erases(members: seq<Member>, path: Path)
  {
    exists end :: 1 <= end <= |path.names| && ErasesAt(members, Above(path, end), end < |path.names|)
  }

  predicate ErasesAt(members: seq<Member>, at: Path, under: bool)
    requires at.names != []
  {
    var last := |at.names| - 1;
    (at.names[last].text != ".wh..opq" && Holds(members, at.names[..last] + [Name(".wh." + at.names[last].text)]))
    || (under && Holds(members, at.names + [Name(".wh..wh..opq")]))
  }

  /** What is hidden by a layer read of an archive is what the archive erases:
      whatever is under the name a whiteout names, whatever is strictly under
      the folder an opaque marker is in, and nothing else. */
  lemma ReadErases(members: seq<Member>, path: Path)
    ensures Removes(Read(members), path) <==> Erases(members, path)
  {
    hide FilesOf;
    forall end | 1 <= end <= |path.names|
      ensures ErasesAt(members, Above(path, end), end < |path.names|)
              <==> Above(path, end) in WhiteoutsOf(members) || (end < |path.names| && Above(path, end) in OpaquesOf(members))
    {
      WhitedOut(members, Above(path, end));
      MadeOpaque(members, Above(path, end));
      hide *;
    }
    hide ErasesAt, Holds, WhiteoutsOf, OpaquesOf, Above;
  }

  /** A whiteout of a name hides it and whatever is under it. */
  lemma WhiteoutErases(members: seq<Member>, folder: seq<Name>, name: string, rest: seq<Name>)
    requires Holds(members, folder + [Name(".wh." + name)]) && name != ".wh..opq"
    ensures Removes(Read(members), Path(folder + [Name(name)] + rest))
  {
    var path := Path(folder + [Name(name)] + rest);
    var end := |folder| + 1;
    assert Above(path, end).names == folder + [Name(name)];
    assert (folder + [Name(name)])[..end - 1] == folder;
    assert ErasesAt(members, Above(path, end), end < |path.names|);
    ReadErases(members, path);
    hide Removes;
  }

  /** An opaque marker hides whatever is under its folder, and not the folder. */
  lemma OpaqueErases(members: seq<Member>, folder: seq<Name>, rest: seq<Name>)
    requires Holds(members, folder + [Name(".wh..wh..opq")]) && folder != [] && rest != []
    ensures Removes(Read(members), Path(folder + rest))
  {
    var path := Path(folder + rest);
    assert Above(path, |folder|).names == folder;
    assert ErasesAt(members, Above(path, |folder|), true);
    ReadErases(members, path);
    hide Removes;
  }

  lemma WhitedOut(members: seq<Member>, at: Path)
    requires at.names != []
    ensures var last := |at.names| - 1;
            at in WhiteoutsOf(members) <==>
              at.names[last].text != ".wh..opq" && Holds(members, at.names[..last] + [Name(".wh." + at.names[last].text)])
  {
    var folder, name := at.names[..|at.names| - 1], at.names[|at.names| - 1].text;
    var marker := folder + [Name(".wh." + name)];
    assert at.names == folder + [Name(name)];
    MarkerNames(folder, name);
    if at in WhiteoutsOf(members) {
      var member :| member in members && Marks(member.path) && Last(member.path) != OPAQUE && Hides(member.path) == at;
      MarkerOf(member.path, folder, name);
    }
    if name != ".wh..opq" && Holds(members, marker) {
      var member :| member in members && member.path.names == marker;
      assert member.path == Path(marker);
      assert Hides(member.path) == at;
    }
  }

  lemma MarkerNames(folder: seq<Name>, name: string)
    ensures var path := Path(folder + [Name(".wh." + name)]);
            && Marks(path) && Hides(path) == Path(folder + [Name(name)])
            && (Last(path) == OPAQUE <==> name == ".wh..opq")
  {
    var path := Path(folder + [Name(".wh." + name)]);
    assert Last(path).text == ".wh." + name;
    assert (".wh." + name)[4..] == name && (".wh." + name)[..4] == ".wh.";
    assert Parent(path).names == folder;
    assert ".wh." + ".wh..opq" == ".wh..wh..opq";
    if Last(path) == OPAQUE {
      assert name == (".wh." + name)[4..] == ".wh..wh..opq"[4..] == ".wh..opq";
    }
  }

  lemma MarkedIsNamed(path: Path)
    ensures Marks(path) ==> path.names != []
  {
    assert |Last(path).text| == 0 <== path.names == [];
  }

  lemma MarkerOf(path: Path, folder: seq<Name>, name: string)
    requires Marks(path) && Hides(path) == Path(folder + [Name(name)])
    ensures path.names == folder + [Name(".wh." + name)]
  {
    MarkedIsNamed(path);
    var last := Last(path).text;
    var hidden := Parent(path).names + [Name(last[4..])];
    assert hidden == folder + [Name(name)];
    assert hidden[..|hidden| - 1] == Parent(path).names && hidden[..|hidden| - 1] == folder;
    assert hidden[|hidden| - 1] == Name(last[4..]) && hidden[|hidden| - 1] == Name(name);
    assert last == last[..4] + last[4..] && last[..4] == ".wh.";
    assert path.names == Parent(path).names + [path.names[|path.names| - 1]];
  }

  lemma MadeOpaque(members: seq<Member>, at: Path)
    requires at.names != []
    ensures at in OpaquesOf(members) <==> Holds(members, at.names + [Name(".wh..wh..opq")])
  {
    var marker := at.names + [Name(".wh..wh..opq")];
    if at in OpaquesOf(members) {
      var member :| member in members && Last(member.path) == OPAQUE && Parent(member.path) == at;
      OpaqueMarks(member.path);
      MarkedIsNamed(member.path);
      assert member.path.names == Parent(member.path).names + [Last(member.path)];
    }
    if Holds(members, marker) {
      var member :| member in members && member.path.names == marker;
      assert Last(member.path) == OPAQUE;
      assert Parent(member.path).names == at.names;
    }
  }

  function ReadEach(archives: seq<seq<Member>>): seq<Layer>
  {
    if archives == [] then [] else ReadEach(archives[..|archives| - 1]) + [Read(archives[|archives| - 1])]
  }

  /** The files of the filesystem that unpacking the archives over one another
      makes, links and folders included. */
  function Unpacked(archives: seq<seq<Member>>): map<Path, nat>
  {
    if archives == [] then map[]
    else
      var below, members := Unpacked(archives[..|archives| - 1]), archives[|archives| - 1];
      (map path | path in below && !Erases(members, path) && !Replaces(members, path) :: below[path]) + Written(members)
  }

  /** The last archive that holds a file at a path says last that it is one,
      and no archive over it takes its place. */
  predicate Stands(archives: seq<seq<Member>>, path: Path)
  {
    archives != []
    && var members := archives[|archives| - 1];
       if path in FilesOf(members) then LastAt(members, path).Some? && LastAt(members, path).value.File?
       else !Replaces(members, path) && Stands(archives[..|archives| - 1], path)
  }

  /** What an archive last says of a path it has a file at: that it has one,
      and when that is its last word, of that size. */
  lemma {:induction false} LastOfFile(members: seq<Member>, path: Path)
    ensures path in FilesOf(members) ==> LastAt(members, path).Some?
    ensures LastAt(members, path).Some? ==> (exists member :: member in members && member.path == path) && !Marks(path)
    ensures LastAt(members, path).Some? && LastAt(members, path).value.File? ==>
              path in FilesOf(members) && FilesOf(members)[path] == LastAt(members, path).value.size
  {
    hide Marks;
    if members != [] {
      LastOfFile(members[..|members| - 1], path);
      assert members[|members| - 1] in members;
    }
  }

  lemma WrittenIs(members: seq<Member>, path: Path)
    ensures path in Written(members) <==> path in FilesOf(members) && LastAt(members, path).Some? && LastAt(members, path).value.File?
    ensures path in Written(members) ==> Written(members)[path] == FilesOf(members)[path]
  {
    LastOfFile(members, path);
    hide LastAt, FilesOf;
  }

  /** What the layers are read for is what unpacking makes, but for the paths
      at which the last file is not what stands. */
  lemma {:induction false} ReadIsUnpacked(archives: seq<seq<Member>>)
    ensures Unpacked(archives) ==
              map path | path in View(ReadEach(archives)) && Stands(archives, path) :: View(ReadEach(archives))[path]
    decreases |archives|
  {
    if archives != [] {
      var rest, members := archives[..|archives| - 1], archives[|archives| - 1];
      ReadIsUnpacked(rest);
      assert ReadEach(archives)[..|rest|] == ReadEach(rest) by {
        ReadAsMany(rest);
      }
      ReadAsMany(archives);
      assert View(ReadEach(archives)) == Over(View(ReadEach(rest)), Read(members));
      hide View, ReadEach, Removes, Erases, Written, FilesOf, LastAt, WhiteoutsOf, OpaquesOf;
      forall path
        ensures path in Unpacked(archives) <==> path in View(ReadEach(archives)) && Stands(archives, path)
        ensures path in Unpacked(archives) ==> Unpacked(archives)[path] == View(ReadEach(archives))[path]
      {
        ReadErases(members, path);
        WrittenIs(members, path);
        LastOfFile(members, path);
      }
    }
  }

  lemma {:induction false} ReadAsMany(archives: seq<seq<Member>>)
    ensures |ReadEach(archives)| == |archives|
    decreases |archives|
  {
    if archives != [] {
      ReadAsMany(archives[..|archives| - 1]);
    }
  }

  /** So the two agree exactly when every file the layers show stands. */
  lemma ReadAgrees(archives: seq<seq<Member>>)
    ensures View(ReadEach(archives)) == Unpacked(archives) <==>
              forall path :: path in View(ReadEach(archives)) ==> Stands(archives, path)
  {
    ReadIsUnpacked(archives);
    hide View, ReadEach, Stands, Unpacked;
  }

  /** They need not: a link over a file leaves the file shown. */
  lemma LinkIsNotSeen(path: Path, size: nat)
    requires !Marks(path)
    ensures var archives := [[Member(path, File(size))], [Member(path, Other)]];
            path in View(ReadEach(archives)) && path !in Unpacked(archives)
  {
    var file, link := [Member(path, File(size))], [Member(path, Other)];
    var archives := [file, link];
    assert archives[..1] == [file] && archives[..1][..0] == [];
    assert file[..0] == [] && link[..0] == [];
    assert FilesOf(file) == map[path := size] && FilesOf(link) == map[];
    assert WhiteoutsOf(link) == {} && OpaquesOf(link) == {} by {
      if Last(path) == OPAQUE {
        OpaqueMarks(path);
      }
    }
    assert !Removes(Read(link), path);
    assert ReadEach([file]) == [Read(file)] && ReadEach(archives) == [Read(file), Read(link)];
    assert [Read(file), Read(link)][..1] == [Read(file)];
    assert View([Read(file)]) == Over(View([]), Read(file));
    assert path in View([Read(file)]);
    assert View(ReadEach(archives)) == Over(View([Read(file)]), Read(link));
    assert LastAt(link, path) == Some(Other);
  }

  // -------------------------------------------------------------- top down

  /** What the pass tests a path against: the paths already seen, and the
      whiteouts and opaque folders of every layer above. */
  predicate Covered(path: Path, seen: map<Path, nat>, hiddenBelow: set<Path>, opaqueBelow: set<Path>)
  {
    path in seen
    || exists end :: 1 <= end <= |path.names| && (Above(path, end) in hiddenBelow || (Above(path, end) != path && Above(path, end) in opaqueBelow))
  }

  ghost predicate Gathers(above: seq<Layer>, hiddenBelow: set<Path>, opaqueBelow: set<Path>)
  {
    && (forall path :: path in hiddenBelow <==> exists i :: 0 <= i < |above| && path in above[i].whiteouts)
    && (forall path :: path in opaqueBelow <==> exists i :: 0 <= i < |above| && path in above[i].opaques)
  }

  lemma CoveredIsHidden(path: Path, above: seq<Layer>, hiddenBelow: set<Path>, opaqueBelow: set<Path>)
    requires Gathers(above, hiddenBelow, opaqueBelow)
    ensures Covered(path, View(above), hiddenBelow, opaqueBelow) <==> path in View(above) || RemovedBy(above, path)
  {
    if RemovedBy(above, path) {
      var i :| 0 <= i < |above| && Removes(above[i], path);
      var end :| 1 <= end <= |path.names| && (Above(path, end) in above[i].whiteouts || (end < |path.names| && Above(path, end) in above[i].opaques));
      assert Above(path, end) in hiddenBelow || (Above(path, end) != path && Above(path, end) in opaqueBelow);
    }
    if end :| 1 <= end <= |path.names| && (Above(path, end) in hiddenBelow || (Above(path, end) != path && Above(path, end) in opaqueBelow)) {
      assert end == |path.names| ==> Above(path, end) == path;
      var i :| 0 <= i < |above| && (Above(path, end) in above[i].whiteouts || (end < |path.names| && Above(path, end) in above[i].opaques));
      assert Removes(above[i], path);
    }
  }

  /** The bytes lost to each part are those of the hidden files of that part. */
  ghost predicate Tallies(lost: map<Name, nat>, hidden: map<Path, nat>, bucket: Path -> Name)
  {
    && lost.Keys == Parts(hidden, bucket)
    && (forall part :: part in lost ==> lost[part] == Sum(PartOf(hidden, part, bucket)))
    && Sum(lost) == Sum(hidden)
  }

  ghost function Parts(hidden: map<Path, nat>, bucket: Path -> Name): set<Name>
  {
    set path | path in hidden :: bucket(path)
  }

  ghost function PartOf(hidden: map<Path, nat>, part: Name, bucket: Path -> Name): map<Path, nat>
  {
    map path | path in hidden && bucket(path) == part :: hidden[path]
  }

  function Bumped(lost: map<Name, nat>, part: Name, size: nat): map<Name, nat>
  {
    lost[part := (if part in lost then lost[part] else 0) + size]
  }

  lemma PartOfMore(hidden: map<Path, nat>, bucket: Path -> Name, path: Path, size: nat, part: Name)
    requires path !in hidden
    ensures PartOf(hidden[path := size], part, bucket)
         == if part == bucket(path) then PartOf(hidden, part, bucket)[path := size] else PartOf(hidden, part, bucket)
  {
    var more := PartOf(hidden[path := size], part, bucket);
    assert more.Keys == PartOf(hidden, part, bucket).Keys + (if part == bucket(path) then {path} else {});
  }

  lemma PartsMore(hidden: map<Path, nat>, bucket: Path -> Name, path: Path, size: nat)
    ensures Parts(hidden[path := size], bucket) == Parts(hidden, bucket) + {bucket(path)}
  {
  }

  lemma NoPart(hidden: map<Path, nat>, bucket: Path -> Name, part: Name)
    requires part !in Parts(hidden, bucket)
    ensures PartOf(hidden, part, bucket) == map[]
  {
  }

  lemma TalliesOne(lost: map<Name, nat>, hidden: map<Path, nat>, bucket: Path -> Name, path: Path, size: nat)
    requires Tallies(lost, hidden, bucket) && path !in hidden
    ensures Tallies(Bumped(lost, bucket(path), size), hidden[path := size], bucket)
  {
    var part, more := bucket(path), Bumped(lost, bucket(path), size);
    PartsMore(hidden, bucket, path, size);
    SumAdds(hidden, path, size);
    SumAdds(lost, part, more[part]);
    hide Parts, Sum;
    forall other | other in more
      ensures more[other] == Sum(PartOf(hidden[path := size], other, bucket))
    {
      PartOfMore(hidden, bucket, path, size, other);
      if other == part {
        SumAdds(PartOf(hidden, part, bucket), path, size);
        assert path !in PartOf(hidden, part, bucket);
        if part !in lost {
          NoPart(hidden, bucket, part);
          SumOfNone<Path>();
        }
      }
    }
  }

  ghost function Done(files: map<Path, nat>, done: set<Path>): map<Path, nat>
  {
    map path | path in files && path in done :: files[path]
  }

  lemma DoneMore(files: map<Path, nat>, done: set<Path>, path: Path)
    ensures Done(files, done + {path}) == if path in files then Done(files, done)[path := files[path]] else Done(files, done)
    ensures Done(files, {}) == map[]
    ensures files.Keys <= done ==> Done(files, done) == files
  {
  }

  /** One layer's files against the layers above it. */
  method Sift(layer: Layer, ghost above: seq<Layer>, bucket: Path -> Name,
              seen: map<Path, nat>, hiddenBelow: set<Path>, opaqueBelow: set<Path>)
    returns (more: map<Path, nat>, lost: map<Name, nat>)
    requires seen == View(above) && Gathers(above, hiddenBelow, opaqueBelow)
    ensures more == Through(layer, above) + View(above)
    ensures Tallies(lost, Hidden(layer, above), bucket)
  {
    hide Tallies, View, RemovedBy, Gathers, Covered, Done, Through, Hidden, Bumped;
    more, lost := seen, map[];
    var left := layer.files.Keys;
    ghost var done: set<Path> := {};
    ghost var through, hidden := Through(layer, above), Hidden(layer, above);
    SiftStarts(through, hidden, View(above), bucket);
    while left != {}
      invariant left <= layer.files.Keys && done == layer.files.Keys - left
      invariant more == Done(through, done) + seen
      invariant Tallies(lost, Done(hidden, done), bucket)
      decreases left
    {
      var path :| path in left;
      var size := layer.files[path];
      SiftOne(layer, above, hiddenBelow, opaqueBelow, done, path, more);
      if Covered(path, more, hiddenBelow, opaqueBelow) {
        TalliesOne(lost, Done(hidden, done), bucket, path, size);
        lost := Bumped(lost, bucket(path), size);
      } else {
        more := more[path := size];
      }
      left := left - {path};
      done := done + {path};
    }
    assert done == layer.files.Keys;
    SiftEnds(layer, above);
  }

  lemma SiftStarts(through: map<Path, nat>, hidden: map<Path, nat>, view: map<Path, nat>, bucket: Path -> Name)
    ensures Done(through, {}) + view == view && Tallies(map[], Done(hidden, {}), bucket)
  {
    DoneMore(through, {}, Path([]));
    DoneMore(hidden, {}, Path([]));
    SumOfNone<Name>();
    SumOfNone<Path>();
  }

  lemma SiftEnds(layer: Layer, above: seq<Layer>)
    ensures Done(Through(layer, above), layer.files.Keys) == Through(layer, above)
    ensures Done(Hidden(layer, above), layer.files.Keys) == Hidden(layer, above)
  {
    DoneMore(Through(layer, above), layer.files.Keys, Path([]));
    DoneMore(Hidden(layer, above), layer.files.Keys, Path([]));
  }

  /** A path of a layer is in it once, so what was seen of the layers above is
      all that can cover it by name. */
  lemma SiftOne(layer: Layer, above: seq<Layer>, hiddenBelow: set<Path>, opaqueBelow: set<Path>,
                done: set<Path>, path: Path, more: map<Path, nat>)
    requires Gathers(above, hiddenBelow, opaqueBelow) && path in layer.files && path !in done
    requires more == Done(Through(layer, above), done) + View(above)
    ensures var through, hidden := Through(layer, above), Hidden(layer, above);
            if Covered(path, more, hiddenBelow, opaqueBelow) then
              && Done(through, done + {path}) == Done(through, done)
              && Done(hidden, done + {path}) == Done(hidden, done)[path := layer.files[path]] && path !in Done(hidden, done)
            else
              && more[path := layer.files[path]] == Done(through, done + {path}) + View(above)
              && Done(hidden, done + {path}) == Done(hidden, done)
  {
    var through, hidden := Through(layer, above), Hidden(layer, above);
    CoveredIsHidden(path, above, hiddenBelow, opaqueBelow);
    DoneMore(through, done, path);
    DoneMore(hidden, done, path);
    assert path in more <==> path in View(above);
    CoveredBySeen(path, more, View(above), hiddenBelow, opaqueBelow);
    hide Gathers, Covered, View, RemovedBy;
    assert path in hidden <==> path !in through;
    hide Through, Hidden;
    SeenMore(Done(through, done), View(above), path, layer.files[path]);
  }

  lemma SeenMore(through: map<Path, nat>, view: map<Path, nat>, path: Path, size: nat)
    ensures path !in view ==> (through + view)[path := size] == through[path := size] + view
  {
  }

  lemma CoveredBySeen(path: Path, more: map<Path, nat>, seen: map<Path, nat>, hiddenBelow: set<Path>, opaqueBelow: set<Path>)
    requires path in more <==> path in seen
    ensures Covered(path, more, hiddenBelow, opaqueBelow) <==> Covered(path, seen, hiddenBelow, opaqueBelow)
  {
  }

  /** One pass from the top stands for laying every layer over the ones below,
      and tallies what each layer holds in vain. */
  method Shown(layers: seq<Layer>, bucket: Path -> Name) returns (seen: map<Path, nat>, hidden: seq<map<Name, nat>>)
    ensures seen == View(layers)
    ensures |hidden| == |layers|
    ensures forall i :: 0 <= i < |layers| ==> Tallies(hidden[i], Hidden(layers[i], layers[i + 1..]), bucket)
  {
    seen, hidden := map[], seq(|layers|, _ => map[]);
    var hiddenBelow: set<Path>, opaqueBelow: set<Path> := {}, {};
    var index := |layers|;
    assert layers[index..] == [];
    while index > 0
      invariant 0 <= index <= |layers| == |hidden|
      invariant seen == View(layers[index..])
      invariant Gathers(layers[index..], hiddenBelow, opaqueBelow)
      invariant forall i :: index <= i < |layers| ==> Tallies(hidden[i], Hidden(layers[i], layers[i + 1..]), bucket)
    {
      index := index - 1;
      var layer := layers[index];
      ghost var above := layers[index + 1..];
      assert layers[index..] == [layer] + above;
      SlidUnder(layer, above);
      var lost: map<Name, nat>;
      seen, lost := Sift(layer, above, bucket, seen, hiddenBelow, opaqueBelow);
      hidden := hidden[index := lost];
      GathersMore(layer, above, hiddenBelow, opaqueBelow);
      hiddenBelow := hiddenBelow + layer.whiteouts;
      opaqueBelow := opaqueBelow + layer.opaques;
      hide Tallies, Gathers, View;
    }
    assert layers[0..] == layers;
  }

  lemma GathersMore(layer: Layer, above: seq<Layer>, hiddenBelow: set<Path>, opaqueBelow: set<Path>)
    requires Gathers(above, hiddenBelow, opaqueBelow)
    ensures Gathers([layer] + above, hiddenBelow + layer.whiteouts, opaqueBelow + layer.opaques)
  {
    var more := [layer] + above;
    assert forall i :: 0 <= i < |above| ==> more[i + 1] == above[i];
    assert more[0] == layer;
  }

  // ----------------------------------------------------------- conservation

  /** Every byte a layer holds is seen through the layers above or hidden by them. */
  lemma LayerConserves(layer: Layer, above: seq<Layer>)
    ensures Sum(layer.files) == Sum(Through(layer, above)) + Sum(Hidden(layer, above))
  {
    SumJoins(Through(layer, above), Hidden(layer, above));
    assert layer.files == Through(layer, above) + Hidden(layer, above);
  }

  ghost function Held(layers: seq<Layer>): nat
  {
    if layers == [] then 0 else Sum(layers[0].files) + Held(layers[1..])
  }

  ghost function Lost(hidden: seq<map<Name, nat>>): nat
  {
    if hidden == [] then 0 else Sum(hidden[0]) + Lost(hidden[1..])
  }

  /** And so does the whole image: what its layers hold is what a container
      sees and what is hidden, summed over the layers and their parts. */
  lemma {:induction false} ImageConserves(layers: seq<Layer>, hidden: seq<map<Name, nat>>, bucket: Path -> Name)
    requires |hidden| == |layers|
    requires forall i :: 0 <= i < |layers| ==> Tallies(hidden[i], Hidden(layers[i], layers[i + 1..]), bucket)
    ensures Held(layers) == Sum(View(layers)) + Lost(hidden)
    decreases |layers|
  {
    if layers != [] {
      var layer, above := layers[0], layers[1..];
      forall i | 0 <= i < |above|
        ensures Tallies(hidden[1..][i], Hidden(above[i], above[i + 1..]), bucket)
      {
        assert above[i + 1..] == layers[i + 2..];
        assert Tallies(hidden[i + 1], Hidden(layers[i + 1], layers[i + 2..]), bucket);
      }
      ImageConserves(above, hidden[1..], bucket);
      SlidUnder(layer, above);
      assert layers == [layer] + above;
      SumJoins(Through(layer, above), View(above));
      LayerConserves(layer, above);
    }
  }
}
