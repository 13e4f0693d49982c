/**
 * The game's layer over PhysFS: the position a seek asks for, the count of open file handles
 * the file readers keep, the assets directory derived from the executable's path, and the
 * buffer `read_string` fills. PhysFS itself is not part of this model: whether a file opens,
 * its length, its read position and the bytes a read delivers are parameters.
 */
module Vfs {
  import opened Ints
  import opened Wrappers

  /** `bx::Whence`: where a seek's offset is counted from. */
  datatype Whence = Begin | Current | End

  /**
   * The position `seek` computes from the file's current position `tell` and its length
   * `limit`, both as PhysFS reports them. The sum is a 64-bit signed addition, so callers
   * must keep it in range.
   */
  function SeekPosition(whence: Whence, offset: int64, tell: int64, limit: int64): (r: int64)
    requires match whence
      case Begin => true
      case Current => INT64_MIN <= tell + offset <= INT64_MAX
      case End => INT64_MIN <= limit + offset <= INT64_MAX
    ensures whence == Begin ==> r == offset
    ensures whence == Current ==> r - tell == offset
    ensures whence == End ==> r - limit == offset
  {
    var base := match whence
      case Begin => 0
      case Current => tell
      case End => limit;
    base + offset
  }

  /** The request PhysFS receives: the position reinterpreted as an unsigned 64-bit offset. */
  function SeekRequest(position: int64): (r: uint64)
    ensures 0 <= position ==> r == position
    ensures position < 0 ==> r > INT64_MAX
  {
    Wrap64(position)
  }

  /** A position lies within the file, its end included. */
  predicate InExtents(position: int, limit: int) {
    0 <= position <= limit
  }

  /** Seeking `k` bytes back from the end of a file at least that long stays inside the file. */
  lemma SeekFromEnd(k: int64, tell: int64, limit: int64)
    requires 0 <= k <= limit
    ensures InExtents(SeekPosition(End, -k, tell, limit), limit)
    ensures SeekRequest(SeekPosition(End, -k, tell, limit)) == limit - k
  {
  }

  /** `size_t(-1)`, the position `find_last_of` returns when nothing matches. */
  const NPOS: uint64 := U64_MOD - 1

  /** The last index below `end` that holds `c`. */
  function LastBelow(s: string, c: char, end: nat): (r: Option<nat>)
    requires end <= |s|
    ensures r.Some? ==> r.value < end && s[r.value] == c && forall j :: r.value < j < end ==> s[j] != c
    ensures r.None? ==> forall j :: 0 <= j < end ==> s[j] != c
    decreases end
  {
    if end == 0 then None
    else if s[end - 1] == c then Some(end - 1)
    else LastBelow(s, c, end - 1)
  }

  /** `s.find_last_of(c, pos)`: the last index at or before `pos` holding `c`, or `NPOS`. */
  function FindLastOf(s: string, c: char, pos: uint64): (r: uint64)
    requires |s| < NPOS
    ensures r != NPOS ==> r < |s| && r <= pos && s[r] == c
    ensures r != NPOS ==> forall j :: r < j < |s| && j <= pos ==> s[j] != c
    ensures r == NPOS ==> forall j :: 0 <= j < |s| && j <= pos ==> s[j] != c
  {
    match LastBelow(s, c, if pos < |s| then pos + 1 else |s|)
    case Some(i) => i
    case None => NPOS
  }

  /** `s.substr(0, n)`: the first `n` characters, or all of them when there are fewer. */
  function Prefix(s: string, n: uint64): string {
    if n < |s| then s[..n] else s
  }

  /**
   * The assets directory `fs::init` mounts: the executable's path cut at the separator before
   * the one that ends the binary's directory, then `assets`. The second search starts one
   * before the first match, in `size_t` arithmetic.
   */
  function AssetsPath(argv0: string, sep: char): string
    requires |argv0| < NPOS
  {
    var bindir := FindLastOf(argv0, sep, NPOS);
    var up := FindLastOf(argv0, sep, Wrap64(bindir as int - 1));
    Prefix(argv0, up) + [sep] + "assets"
  }

  /** A match at `k` with nothing after it up to `pos` is the one `find_last_of` returns. */
  lemma FoundAt(s: string, c: char, pos: uint64, k: nat)
    requires |s| < NPOS && k < |s| && k <= pos && s[k] == c
    requires forall j :: k < j < |s| && j <= pos ==> s[j] != c
    ensures FindLastOf(s, c, pos) == k
  {
  }

  /** Where the characters of `x + [c] + y` come from. */
  lemma Around(x: string, c: char, y: string)
    ensures (x + [c] + y)[|x|] == c
    ensures forall j :: 0 <= j < |x| ==> (x + [c] + y)[j] == x[j]
    ensures forall j :: |x| < j < |x| + 1 + |y| ==> (x + [c] + y)[j] == y[j - |x| - 1]
  {
  }

  /** The usual layout `root/bin/binary`: the assets folder sits beside the binary's directory. */
  lemma AssetsBesideBinDir(root: string, bin: string, binary: string, sep: char)
    requires sep !in bin && sep !in binary
    requires |root + [sep] + bin + [sep] + binary| < NPOS
    ensures AssetsPath(root + [sep] + bin + [sep] + binary, sep) == root + [sep] + "assets"
  {
    var dir := root + [sep] + bin;
    var s := dir + [sep] + binary;
    Around(dir, sep, binary);
    Around(root, sep, bin);
    var k := |dir|;
    FoundAt(s, sep, NPOS, k);
    assert forall j :: |root| < j < |s| && j <= k - 1 ==> s[j] == dir[j] == bin[j - |root| - 1];
    FoundAt(s, sep, k - 1, |root|);
    assert s[..|root|] == root by {
      assert forall j :: 0 <= j < |root| ==> s[j] == dir[j] == root[j];
    }
  }

  /** A bare program name, with no separator at all, is kept whole. */
  lemma AssetsWithoutSeparator(argv0: string, sep: char)
    requires sep !in argv0 && |argv0| < NPOS
    ensures AssetsPath(argv0, sep) == argv0 + [sep] + "assets"
  {
    var bindir := FindLastOf(argv0, sep, NPOS);
    assert bindir == NPOS;
    var up := FindLastOf(argv0, sep, Wrap64(bindir as int - 1));
    assert up == NPOS;
  }

  /**
   * With a single separator there is no directory to go up to. After a non-empty head the whole
   * path is kept, binary name included; a separator at the very start wraps the second search
   * around to the whole string, which finds that separator again, and leaves the root.
   */
  lemma AssetsOneSeparator(head: string, binary: string, sep: char)
    requires sep !in head && sep !in binary
    requires |head + [sep] + binary| < NPOS
    ensures head != [] ==> AssetsPath(head + [sep] + binary, sep) == head + [sep] + binary + [sep] + "assets"
    ensures head == [] ==> AssetsPath(head + [sep] + binary, sep) == [sep] + "assets"
  {
    var s := head + [sep] + binary;
    Around(head, sep, binary);
    var k := |head|;
    FoundAt(s, sep, NPOS, k);
    if head == [] {
      FoundAt(s, sep, NPOS, 0);
    }
  }

  /** The module's globals: whether the executable carries its own archive, and the open-handle count. */
  class Globals {
    var fused: bool
    var filesOpen: int32

    constructor ()
      ensures !fused && filesOpen == 0
    {
      fused := false;
      filesOpen := 0;
    }

    /**
     * `fs::init` as far as this model goes: the executable's own mount sets `fused`, and the
     * result is the assets directory mounted next.
     */
    method Init(argv0: string, sep: char, executableMounts: bool) returns (assets: string)
      requires |argv0| < NPOS
      modifies `fused
      ensures fused == (old(fused) || executableMounts)
      ensures assets == AssetsPath(argv0, sep)
    {
      if executableMounts {
        fused := true;
      }
      assets := AssetsPath(argv0, sep);
    }
  }

  /** A PhysFS-backed file reader; the file writer keeps the count the same way. */
  class FileReader {
    const globals: Globals
    /** `file != NULL`. */
    var hasFile: bool

    constructor (g: Globals)
      ensures globals == g && !hasFile
    {
      globals := g;
      hasFile := false;
    }

    /**
     * Opens a file, PhysFS deciding whether that `succeeds`. The handle field is overwritten
     * either way, and only a successful open is counted.
     */
    method Open(succeeds: bool) returns (ok: bool)
      requires globals.filesOpen < INT32_MAX
      modifies this, globals`filesOpen
      ensures ok == succeeds && hasFile == succeeds
      ensures globals.filesOpen == old(globals.filesOpen) + (if succeeds then 1 else 0)
    {
      hasFile := succeeds;
      if !succeeds {
        return false;
      }
      globals.filesOpen := globals.filesOpen + 1;
      return true;
    }

    /** Closes the file if there is one. The handle field is not cleared afterwards. */
    method Close()
      requires hasFile ==> globals.filesOpen > INT32_MIN
      modifies globals`filesOpen
      ensures globals.filesOpen == old(globals.filesOpen) - (if hasFile then 1 else 0)
    {
      if hasFile {
        globals.filesOpen := globals.filesOpen - 1;
      }
    }
  }

  /** Closing a reader twice undoes its one open twice: the count ends one below where it started. */
  method CloseTwice(g: Globals)
    requires INT32_MIN < g.filesOpen < INT32_MAX
    modifies g`filesOpen
    ensures g.filesOpen == old(g.filesOpen) - 1
  {
    var reader := new FileReader(g);
    var ok := reader.Open(true);
    reader.Close();
    reader.Close();
  }

  /** How many bytes `read_string` asks for: `bytes` when positive, else the size narrowed to `int`. */
  function ReadCount(bytes: int32, size: int64): (r: int32)
    ensures bytes > 0 ==> r == bytes
    ensures bytes <= 0 && 0 <= size <= INT32_MAX ==> r == size
  {
    if bytes > 0 then bytes else ToInt32(size)
  }

  /** `std::string::resize`: cut to `n` characters, or padded to `n` with `'\0'`. */
  function Resized(s: string, n: nat): (r: string)
    ensures |r| == n
    ensures forall k :: 0 <= k < n ==> r[k] == if k < |s| then s[k] else '\0'
  {
    if n <= |s| then s[..n] else s + seq(n - |s|, _ => '\0')
  }

  /**
   * `fs::read_string`: opens the file (PhysFS deciding whether that `opens`), asks for
   * `ReadCount(bytes, size)` bytes into a buffer one longer, receives `delivered`, and
   * terminates the buffer. A file that does not open leaves the target untouched. Either way
   * the open-handle count ends where it started.
   */
  method ReadString(g: Globals, data0: string, bytes: int32, opens: bool, size: int64, delivered: string)
    returns (ok: bool, data: string)
    requires g.filesOpen < INT32_MAX
    requires opens ==> 0 <= ReadCount(bytes, size) < INT32_MAX
    requires opens ==> |delivered| <= ReadCount(bytes, size)
    modifies g`filesOpen
    ensures g.filesOpen == old(g.filesOpen)
    ensures ok == opens
    ensures !opens ==> data == data0
    ensures opens ==> |data| == ReadCount(bytes, size) + 1 && data[ReadCount(bytes, size)] == '\0'
    ensures opens ==> data[..|delivered|] == delivered
    ensures opens ==> forall k :: |delivered| <= k < ReadCount(bytes, size) ==>
                        data[k] == if k < |data0| then data0[k] else '\0'
    ensures opens && bytes <= 0 && |delivered| == size ==> data == delivered + ['\0']
  {
    var file := new FileReader(g);
    ok := file.Open(opens);
    if !ok {
      return false, data0;
    }
    var n := ReadCount(bytes, size);
    data := Resized(data0, n + 1);
    data := delivered + data[|delivered|..];
    data := data[n := '\0'];
    file.Close();
  }
}
