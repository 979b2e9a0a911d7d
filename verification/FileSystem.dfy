/** The few file operations the asset manager uses, over a map from path to node. */
module FileSystem {
  import opened Frames

  datatype Node = File(content: seq<Byte>) | Directory

  type Files = map<string, Node>

  /** Where the last component of a path starts. */
  function NameStart(path: string): (k: nat)
    ensures k <= |path|
  {
    if path == "" || path[|path| - 1] == '/' then |path| else NameStart(path[..|path| - 1])
  }

  function FileName(path: string): string { path[NameStart(path)..] }

  function Parent(path: string): string {
    if NameStart(path) == 0 then "" else path[..NameStart(path) - 1]
  }

  /** A name that can be that of a file. */
  predicate Usable(name: string) { name != "" && name != "." && name != ".." }

  predicate Plain(name: string) { '/' !in name }

  lemma {:induction false} NameStartIs(front: string, name: string)
    requires Plain(name)
    ensures NameStart(front + "/" + name) == |front| + 1
  {
    var path := front + "/" + name;
    if name == "" {
    } else {
      assert path[|path| - 1] == name[|name| - 1];
      assert path[..|path| - 1] == front + "/" + name[..|name| - 1];
      NameStartIs(front, name[..|name| - 1]);
    }
  }

  /** Joining a directory and a plain name, and taking the path apart again. */
  lemma JoinThenSplit(front: string, name: string)
    requires Plain(name)
    ensures FileName(front + "/" + name) == name && Parent(front + "/" + name) == front
  {
    NameStartIs(front, name);
  }

  lemma {:induction false} FileNameIsPlain(path: string)
    ensures Plain(FileName(path))
  {
    if path != "" && path[|path| - 1] != '/' {
      var front := path[..|path| - 1];
      FileNameIsPlain(front);
      assert path == front + [path[|path| - 1]];
      assert FileName(path) == FileName(front) + [path[|path| - 1]];
    }
  }

  predicate IsFile(fs: Files, path: string) {
    Usable(FileName(path)) && path in fs && fs[path].File?
  }

  predicate IsDirectory(fs: Files, path: string) {
    path in fs && fs[path].Directory?
  }

  /** The paths at which a disk is willing to make a file: names may be too long for it, and so on. */
  type Accepts = string -> bool

  predicate Takes(accepts: Accepts, path: string) {
    accepts(path) && Usable(FileName(path))
  }

  /** Creates a directory and those above it; false where something else is in the way. */
  function MakeDirs(fs: Files, path: string): (Files, bool)
    decreases |path|
  {
    if path == "" || IsDirectory(fs, path) then (fs, true)
    else if path in fs then (fs, false)
    else
      var (above, ok) := MakeDirs(fs, Parent(path));
      if ok then (above[path := Directory], true) else (above, false)
  }

  /** Creates the directories above, then the file; false when either is impossible. */
  function Touch(fs: Files, accepts: Accepts, path: string): (Files, bool) {
    var (made, ok) := MakeDirs(fs, Parent(path));
    if !ok || !Takes(accepts, path) || IsDirectory(made, path) then (made, false)
    else (if path in made then made else made[path := File([])], true)
  }

  /** Moves a file over whatever file is at the target; false when a directory is, or when the disk
      does not take the path. */
  function Move(fs: Files, accepts: Accepts, src: string, target: string): (Files, bool)
    requires IsFile(fs, src)
  {
    if IsDirectory(fs, target) || !Takes(accepts, target) then (fs, false)
    else ((fs - {src})[target := fs[src]], true)
  }

  /** Making directories adds directories only, where nothing was: the one asked for, and others no
      longer than the one above it. */
  lemma {:induction false} MakeDirsAdds(fs: Files, path: string)
    ensures var (made, ok) := MakeDirs(fs, path);
      && (forall p | p in fs :: p in made && made[p] == fs[p])
      && (forall p | p in made && p !in fs ::
            made[p].Directory? && (p == path || |p| <= |Parent(path)|) && p != "")
      && (ok && path != "" ==> IsDirectory(made, path))
    decreases |path|
  {
    if path != "" && path !in fs {
      MakeDirsAdds(fs, Parent(path));
      assert |Parent(Parent(path))| <= |Parent(path)|;
    }
  }

  lemma TouchAdds(fs: Files, accepts: Accepts, path: string)
    ensures var (made, ok) := Touch(fs, accepts, path);
      && (forall p | p in fs :: p in made && made[p] == fs[p])
      && (forall p | p in made && p !in fs ::
            (p == path && made[p].File?) || (made[p].Directory? && |p| <= |Parent(path)|))
      && (forall p | p in made && p !in fs && p != path :: p == Parent(path) || |p| <= |Parent(Parent(path))|)
      && (ok ==> IsFile(made, path) && Takes(accepts, path))
      && (MakeDirs(fs, Parent(path)).1 ==> Parent(path) == "" || IsDirectory(made, Parent(path)))
      && (ok <==> MakeDirs(fs, Parent(path)).1 && Takes(accepts, path) && !IsDirectory(made, path))
  {
    MakeDirsAdds(fs, Parent(path));
    assert |Parent(Parent(path))| <= |Parent(path)|;
  }

  // ---- exactly what an operation does to the disk ----

  /** The path itself, or a directory above it. */
  predicate Above(a: string, path: string)
    decreases |path|
  {
    a == path || (path != "" && Above(a, Parent(path)))
  }

  /** The nearest of them that is there; the empty path stands for the root. */
  function Nearest(fs: Files, path: string): string
    decreases |path|
  {
    if path == "" || path in fs then path else Nearest(fs, Parent(path))
  }

  lemma {:induction false} AboveIsShort(a: string, path: string)
    requires Above(a, path)
    ensures |a| <= |path|
    decreases |path|
  {
    if a == path {
    } else {
      AboveIsShort(a, Parent(path));
    }
  }

  lemma {:induction false} NearestIsAbove(fs: Files, path: string)
    ensures Above(Nearest(fs, path), path) && (Nearest(fs, path) == path || |Nearest(fs, path)| <= |Parent(path)|)
    decreases |path|
  {
    if path == "" || path in fs {
    } else {
      NearestIsAbove(fs, Parent(path));
      assert |Parent(Parent(path))| <= |Parent(path)|;
    }
  }

  /** Making directories succeeds exactly if the nearest path there is a directory or the root; it then adds
      every directory from there down to the one asked for, and else nothing. */
  lemma {:induction false} MakeDirsExact(fs: Files, path: string)
    ensures var (made, ok) := MakeDirs(fs, path); var at := Nearest(fs, path);
      && (ok <==> at == "" || IsDirectory(fs, at))
      && (forall p :: p in made <==> p in fs || (ok && Above(p, path) && |p| > |at|))
      && (forall p | p in made :: made[p] == if p in fs then fs[p] else Directory)
    decreases |path|
  {
    forall p | Above(p, path) ensures |p| <= |path| { AboveIsShort(p, path); }
    if path == "" || path in fs {
    } else {
      MakeDirsExact(fs, Parent(path));
      NearestIsAbove(fs, Parent(path));
      AboveIsShort(Nearest(fs, Parent(path)), Parent(path));
      forall p | Above(p, Parent(path)) ensures |p| < |path| { AboveIsShort(p, Parent(path)); }
    }
  }

  /** Touching makes the directories above and, if the disk takes the path and no directory is there, an
      empty file where there was none; nothing else. */
  lemma TouchExact(fs: Files, accepts: Accepts, path: string)
    ensures var (made, dirs) := MakeDirs(fs, Parent(path)); var (touched, ok) := Touch(fs, accepts, path);
      && (ok <==> dirs && Takes(accepts, path) && !IsDirectory(made, path))
      && (!ok ==> touched == made)
      && (ok ==> path in touched && touched[path] == if path in made then made[path] else File([]))
      && (ok ==> forall p | p != path :: (p in touched <==> p in made) && (p in made ==> touched[p] == made[p]))
  {
  }

  /** A move takes the node from one path to the other, and touches no third one; or does nothing. */
  lemma MoveExact(fs: Files, accepts: Accepts, src: string, target: string)
    requires IsFile(fs, src) && src != target
    ensures var (moved, ok) := Move(fs, accepts, src, target);
      && (ok <==> !IsDirectory(fs, target) && Takes(accepts, target))
      && (!ok ==> moved == fs)
      && (ok ==> src !in moved && target in moved && moved[target] == fs[src])
      && (ok ==> forall p | p != src && p != target ::
            (p in moved <==> p in fs) && (p in fs ==> moved[p] == fs[p]))
  {
  }
}
