/** The executable-path part of the Win32 layer: finding where the directory part of the
    executable's file name ends, and building a path to a file in that directory. The
    pointer `OnePastLastEXEFileNameSlash` into `EXEFileName` is an offset into the array. */
module Win32Paths {
  import opened Tools

  const WIN32_STATE_FILE_NAME_COUNT: nat := 260

  const BACKSLASH: char := '\\'

  /** The part of the platform state that holds the executable's file name. */
  class Win32State {
    var EXEFileName: array<char>
    var OnePastLastEXEFileNameSlash: nat

    /** The offset points into the file-name buffer (at most one past its end). */
    predicate Valid()
      reads this
    {
      OnePastLastEXEFileNameSlash <= EXEFileName.Length
    }

    /** The state starts zeroed: an all-NUL name buffer of MAX_PATH characters and the
        offset at its start. */
    constructor()
      ensures fresh(EXEFileName) && EXEFileName.Length == WIN32_STATE_FILE_NAME_COUNT
      ensures forall i :: 0 <= i < EXEFileName.Length ==> EXEFileName[i] == NUL
      ensures OnePastLastEXEFileNameSlash == 0
      ensures Valid()
    {
      EXEFileName := new char[WIN32_STATE_FILE_NAME_COUNT](_ => NUL);
      OnePastLastEXEFileNameSlash := 0;
    }
  }

  /** The reference definition, scanning backwards: one past the last backslash among the
      first `n` characters, or 0 when there is none. */
  function LastSlashEnd(s: seq<char>, n: nat): (r: nat)
    requires n <= |s|
    ensures r <= n
    ensures 0 < r ==> s[r - 1] == BACKSLASH
    ensures forall i :: r <= i < n ==> s[i] != BACKSLASH
    ensures r == 0 <==> forall i :: 0 <= i < n ==> s[i] != BACKSLASH
  {
    if n == 0 then 0
    else if s[n - 1] == BACKSLASH then n
    else LastSlashEnd(s, n - 1)
  }

  /** Scans the name up to its terminator and records one past the last backslash seen.
      The name itself, which the operating system writes, is the input. */
  method Win32GetEXEFileName(state: Win32State)
    requires HasNul(state.EXEFileName[..])
    modifies state`OnePastLastEXEFileNameSlash
    ensures state.OnePastLastEXEFileNameSlash == LastSlashEnd(state.EXEFileName[..], CLength(state.EXEFileName[..]))
    ensures state.OnePastLastEXEFileNameSlash <= CLength(state.EXEFileName[..])
    ensures state.Valid()
  {
    ghost var name := state.EXEFileName[..];
    state.OnePastLastEXEFileNameSlash := 0;
    var scan := 0;
    while state.EXEFileName[scan] != NUL
      invariant scan <= CLength(name)
      invariant state.OnePastLastEXEFileNameSlash == LastSlashEnd(name, scan)
      decreases CLength(name) - scan
    {
      if state.EXEFileName[scan] == BACKSLASH {
        state.OnePastLastEXEFileNameSlash := scan + 1;
      }
      scan := scan + 1;
    }
  }

  /** Writes the directory part of the executable's name (through its last backslash), then
      `fileName` up to its terminator, then a NUL, to the start of `dest`. */
  method Win32BuildEXEPathFileName(state: Win32State, fileName: array<char>, destCount: int, dest: array<char>)
    requires state.Valid()
    requires HasNul(fileName[..])
    requires state.OnePastLastEXEFileNameSlash + CLength(fileName[..]) + 1 <= dest.Length
    requires dest != state.EXEFileName && dest != fileName
    modifies dest
    ensures dest[..state.OnePastLastEXEFileNameSlash + CLength(fileName[..]) + 1]
         == state.EXEFileName[..state.OnePastLastEXEFileNameSlash] + fileName[..CLength(fileName[..])] + [NUL]
    ensures dest[state.OnePastLastEXEFileNameSlash + CLength(fileName[..]) + 1..]
         == old(dest[state.OnePastLastEXEFileNameSlash + CLength(fileName[..]) + 1..])
  {
    var fileNameLength := StringLength(fileName);
    CatStrings(state.OnePastLastEXEFileNameSlash, state.EXEFileName,
               fileNameLength, fileName, destCount % 0x1_0000_0000_0000_0000, dest);
  }

  /** After the scan, the built path is a C string whose directory part ends in a backslash
      (unless the name has none) and whose length is the directory length plus the file
      name's length. */
  lemma {:induction false} BuiltPathIsTerminated(name: seq<char>, fileName: seq<char>, rest: seq<char>)
    requires HasNul(name) && HasNul(fileName)
    ensures var dir := name[..LastSlashEnd(name, CLength(name))];
            var path := dir + fileName[..CLength(fileName)] + [NUL] + rest;
            HasNul(path) && CLength(path) == |dir| + CLength(fileName)
            && (0 < |dir| ==> dir[|dir| - 1] == BACKSLASH)
  {
    var dir := name[..LastSlashEnd(name, CLength(name))];
    CatLength(dir, fileName[..CLength(fileName)], rest);
  }
}
