/**
 * POSIX file descriptors (`open`, `read`, `close`) over a table of optional slots.
 *
 * Descriptors 0-2 belong to stdin, stdout and stderr and have no slot; slot `i` holds the
 * file of descriptor `i + 3`. The host filesystem is a parameter: `open` hands it the
 * translated options and gets a file or a failure back, and `read`/`close` receive the
 * host's outcome as an input.
 */
module PosixIo {
  import opened Outcomes

  const I32_MIN: int := -0x8000_0000
  const I32_MAX: int := 0x7FFF_FFFF
  /** Host `usize` is taken to be 64 bits wide. */
  const USIZE_MODULUS: int := 0x1_0000_0000_0000_0000

  /** `FileDescriptor` is an `i32`. */
  type FileDescriptor = x: int | I32_MIN <= x <= I32_MAX

  const STDERR_FILENO: FileDescriptor := 2
  const NORMAL_FILENO_BASE: FileDescriptor := STDERR_FILENO + 1

  // The `open` flags, as the bit pattern of the `i32` argument.
  const O_RDONLY: bv32 := 0x0
  const O_WRONLY: bv32 := 0x1
  const O_RDWR: bv32 := 0x2
  const O_ACCMODE: bv32 := O_RDWR | O_WRONLY | O_RDONLY
  const O_NONBLOCK: bv32 := 0x4
  const O_APPEND: bv32 := 0x8
  const O_NOFOLLOW: bv32 := 0x100
  const O_CREAT: bv32 := 0x200
  const O_TRUNC: bv32 := 0x400
  const O_EXCL: bv32 := 0x800

  /** What `open` asks the host filesystem for. */
  datatype OpenOptions = OpenOptions(read: bool, write: bool, append: bool, create: bool, truncate: bool)

  /** A host file, opaque to this module. */
  datatype GuestFile = GuestFile(handle: nat)

  /** The descriptor table: slot `i` holds the file of descriptor `i + 3`, if any. */
  datatype State = State(files: seq<Option<GuestFile>>)

  /** `file_idx_to_fd`: the slot index plus 3; an index whose descriptor overflows `i32` is fatal. */
  function FileIdxToFd(idx: nat): (r: Result<FileDescriptor>)
    ensures r.Ok? <==> idx + 3 <= I32_MAX
    ensures r.Ok? ==> r.value == idx + 3 && r.value >= NORMAL_FILENO_BASE
  {
    if idx > I32_MAX then Fatal
    else if idx + NORMAL_FILENO_BASE > I32_MAX then Fatal
    else Ok(idx + NORMAL_FILENO_BASE)
  }

  /**
   * `fd_to_file_idx`: the descriptor minus 3, fatal when that underflows `i32`, then cast to
   * `usize`, so a descriptor below 3 wraps to an index near 2^64.
   */
  function FdToFileIdx(fd: FileDescriptor): (r: Result<nat>)
    ensures r.Ok? <==> fd - 3 >= I32_MIN
    ensures r.Ok? && fd >= 3 ==> r.value == fd - 3
    ensures r.Ok? && fd < 3 ==> r.value >= USIZE_MODULUS + I32_MIN
  {
    var d := fd - NORMAL_FILENO_BASE;
    if d < I32_MIN then Fatal
    else if d >= 0 then Ok(d)
    else Ok(d + USIZE_MODULUS)
  }

  /** The two mappings are mutual inverses on the descriptors that have slots. */
  lemma FdMappingRoundTrip(idx: nat, fd: FileDescriptor)
    ensures idx + 3 <= I32_MAX ==> FdToFileIdx(FileIdxToFd(idx).value) == Ok(idx)
    ensures fd >= 3 ==> FileIdxToFd(FdToFileIdx(fd).value) == Ok(fd)
  {
  }

  /** `State::file_for_fd`: the file in the descriptor's slot, `None` past the table's end. */
  function FileForFd(st: State, fd: FileDescriptor): (r: Result<Option<GuestFile>>)
    ensures r.Ok? <==> fd - 3 >= I32_MIN
    ensures fd >= 3 ==> r == Ok(if fd - 3 < |st.files| then st.files[fd - 3] else None)
  {
    match FdToFileIdx(fd)
    case Fatal => Fatal
    case Ok(i) => Ok(if i < |st.files| then st.files[i] else None)
  }

  /** Standard streams and negative descriptors have no slot in any table of realistic size. */
  lemma StandardStreamsHaveNoSlot(st: State, fd: FileDescriptor)
    requires I32_MIN + 3 <= fd < 3 && |st.files| < USIZE_MODULUS + I32_MIN
    ensures FileForFd(st, fd) == Ok(None)
  {
  }

  /**
   * The four assertions at the top of `open`. Together they accept exactly the flags whose
   * access mode is not 3 and which set nothing outside the access mode, `O_NONBLOCK`,
   * `O_APPEND`, `O_CREAT` and `O_TRUNC`.
   */
  function FlagsSupported(flags: bv32): (ok: bool)
    ensures ok <==> flags & 3 != 3 && flags & 0xFFFF_F9F0 == 0
  {
    && (flags & O_ACCMODE) in [O_RDONLY, O_WRONLY, O_RDWR]
    && flags & !(O_ACCMODE | O_NONBLOCK | O_APPEND | O_NOFOLLOW | O_CREAT | O_TRUNC | O_EXCL) == 0
    && flags & O_NOFOLLOW == 0
    && flags & O_EXCL == 0
  }

  /**
   * The translation of the flags into open options. As written, `flags & (O_RDONLY | O_RDWR)`
   * tests only the `O_RDWR` bit because `O_RDONLY` is 0, so a read-only open asks for neither
   * reading nor writing; `Intended` asks for reading unless the mode is write-only.
   */
  function OptionsFor(flags: bv32, variant: Variant): (r: OpenOptions)
    ensures r.write <==> flags & (O_WRONLY | O_RDWR) != 0
    ensures variant == AsWritten ==> (r.read <==> flags & O_RDWR != 0)
    ensures r.append <==> flags & O_APPEND != 0
    ensures r.create <==> flags & O_CREAT != 0
    ensures r.truncate <==> flags & O_TRUNC != 0
  {
    OpenOptions(
      read := match variant
              case AsWritten => flags & (O_RDONLY | O_RDWR) != 0
              case Intended => flags & O_ACCMODE != O_WRONLY,
      write := flags & (O_WRONLY | O_RDWR) != 0,
      append := flags & O_APPEND != 0,
      create := flags & O_CREAT != 0,
      truncate := flags & O_TRUNC != 0)
  }

  /** `O_NONBLOCK` changes nothing about the options. */
  lemma NonblockIgnored(flags: bv32, variant: Variant)
    ensures OptionsFor(flags | O_NONBLOCK, variant) == OptionsFor(flags, variant)
  {
  }

  /** As written, a read-only open (access mode 0) asks the filesystem for no access at all. */
  lemma ReadOnlyOpenCannotRead(flags: bv32)
    requires FlagsSupported(flags) && flags & O_ACCMODE == O_RDONLY
    ensures !OptionsFor(flags, AsWritten).read && !OptionsFor(flags, AsWritten).write
  {
  }

  /**
   * With the intended reading, each supported access mode asks for what it names: reading
   * for read-only and read-write, writing for write-only and read-write.
   */
  lemma IntendedAccessModes(flags: bv32)
    requires FlagsSupported(flags)
    ensures OptionsFor(flags, Intended).read <==> flags & O_ACCMODE in [O_RDONLY, O_RDWR]
    ensures OptionsFor(flags, Intended).write <==> flags & O_ACCMODE in [O_WRONLY, O_RDWR]
  {
  }

  /** The lowest empty slot, if there is one (`iter().position(|f| f.is_none())`). */
  function FirstFree(files: seq<Option<GuestFile>>): (r: Option<nat>)
    ensures r.Some? ==> r.value < |files| && files[r.value].None?
    ensures r.Some? ==> forall j :: 0 <= j < r.value ==> files[j].Some?
    ensures r.None? ==> forall j :: 0 <= j < |files| ==> files[j].Some?
  {
    if |files| == 0 then None
    else if files[0].None? then Some(0)
    else
      match FirstFree(files[1..])
      case None => None
      case Some(i) => Some(i + 1)
  }

  /** The slot a new file goes into: the lowest empty one, or a new one at the end. */
  function SlotFor(files: seq<Option<GuestFile>>): (idx: nat)
    ensures idx <= |files|
    ensures idx < |files| ==> files[idx].None?
    ensures forall j :: 0 <= j < idx ==> files[j].Some?
  {
    match FirstFree(files)
    case Some(i) => i
    case None => |files|
  }

  /**
   * `open`. Unsupported flags are fatal. The filesystem `fs` is asked with the translated
   * options; on failure the result is -1 and the table is unchanged, on success the file
   * goes into the lowest empty slot (or a new slot at the end) and its descriptor is returned.
   */
  function Open(st: State, flags: bv32, fs: OpenOptions -> Option<GuestFile>, variant: Variant)
    : (r: Result<(State, FileDescriptor)>)
    ensures flags & O_ACCMODE == 3 ==> r == Fatal
    ensures flags & !(O_ACCMODE | O_NONBLOCK | O_APPEND | O_NOFOLLOW | O_CREAT | O_TRUNC | O_EXCL) != 0 ==> r == Fatal
    ensures flags & O_NOFOLLOW != 0 ==> r == Fatal
    ensures flags & O_EXCL != 0 ==> r == Fatal
    ensures FlagsSupported(flags) && fs(OptionsFor(flags, variant)).None? ==> r == Ok((st, -1))
    ensures FlagsSupported(flags) && fs(OptionsFor(flags, variant)).Some? ==>
      var idx := SlotFor(st.files);
      && (r.Ok? <==> idx + 3 <= I32_MAX)
      && (r.Ok? ==> var (st', fd) := r.value;
            && fd == idx + 3
            && |st'.files| == (if idx < |st.files| then |st.files| else |st.files| + 1)
            && st'.files[idx] == fs(OptionsFor(flags, variant))
            && (forall j :: 0 <= j < |st.files| && j != idx ==> st'.files[j] == st.files[j]))
  {
    if !FlagsSupported(flags) then Fatal
    else
      match fs(OptionsFor(flags, variant))
      case None => Ok((st, -1))
      case Some(file) =>
        var idx := SlotFor(st.files);
        var files := if idx < |st.files| then st.files[idx := Some(file)] else st.files + [Some(file)];
        match FileIdxToFd(idx)
        case Fatal => Fatal
        case Ok(fd) => Ok((State(files), fd))
  }

  /** A successful `open` returns a descriptor of at least 3 under which the new file is found. */
  lemma OpenThenFind(st: State, flags: bv32, fs: OpenOptions -> Option<GuestFile>, variant: Variant,
                     other: FileDescriptor)
    requires Open(st, flags, fs, variant).Ok?
    requires Open(st, flags, fs, variant).value.1 != -1
    ensures var (st', fd) := Open(st, flags, fs, variant).value;
      && fd >= 3
      && FileForFd(st', fd) == Ok(fs(OptionsFor(flags, variant)))
      && FileForFd(st', fd).value.Some?
      && (other != fd && FileForFd(st, other).Ok? && FileForFd(st, other).value.Some? ==>
            FileForFd(st', other) == FileForFd(st, other))
  {
    var (st', fd) := Open(st, flags, fs, variant).value;
    assert FlagsSupported(flags);
    if other != fd && FileForFd(st, other).Ok? && FileForFd(st, other).value.Some? {
      var i := FdToFileIdx(other).value;
      assert i < |st.files|;
      if other < 3 {
        assert i >= USIZE_MODULUS + I32_MIN;
      }
    }
  }

  /**
   * `close`. A descriptor whose slot is past the table's end or empty is fatal. Otherwise
   * exactly that slot is emptied (the table never shrinks) and the result is 0 or -1 as the
   * host's flush `synced` succeeded or not.
   */
  function Close(st: State, fd: FileDescriptor, synced: bool): (r: Result<(State, int)>)
    ensures r.Ok? <==> FileForFd(st, fd).Ok? && FileForFd(st, fd).value.Some?
    ensures r.Ok? ==> var (st', status) := r.value; var i := FdToFileIdx(fd).value;
      && |st'.files| == |st.files|
      && i < |st.files|
      && st'.files[i].None?
      && (forall j :: 0 <= j < |st.files| && j != i ==> st'.files[j] == st.files[j])
      && status == (if synced then 0 else -1)
    ensures r.Ok? && |st.files| < USIZE_MODULUS + I32_MIN ==> fd >= 3
  {
    match FdToFileIdx(fd)
    case Fatal => Fatal
    case Ok(i) =>
      if i >= |st.files| then Fatal
      else if st.files[i].None? then Fatal
      else Ok((State(st.files[i := None]), if synced then 0 else -1))
  }

  /** After `close`, the descriptor finds nothing, and every other descriptor finds what it did. */
  lemma CloseThenFind(st: State, fd: FileDescriptor, synced: bool, other: FileDescriptor)
    requires Close(st, fd, synced).Ok?
    ensures var st' := Close(st, fd, synced).value.0;
      && FileForFd(st', fd) == Ok(None)
      && (other != fd ==> FileForFd(st', other) == FileForFd(st, other))
  {
    var st' := Close(st, fd, synced).value.0;
    if other != fd && FdToFileIdx(other).Ok? {
      var i := FdToFileIdx(other).value;
      if other < 3 {
        assert i >= USIZE_MODULUS + I32_MIN;
        assert fd - 3 < |st.files|;
      }
    }
  }

  /**
   * `read`. A descriptor without a file is fatal. Otherwise the table is unchanged and the
   * result is the byte count the host reported (`Some(n)`, fatal if it does not fit the
   * `i32` result) or -1 on a host error (`None`). The host never reports more than `size`.
   */
  function Read(st: State, fd: FileDescriptor, size: nat, host: Option<nat>): (r: Result<(State, int)>)
    requires size <= U32_MAX
    requires host.Some? ==> host.value <= size
    ensures r.Ok? <==> (&& FileForFd(st, fd).Ok? && FileForFd(st, fd).value.Some?
                        && (host.Some? ==> host.value <= I32_MAX))
    ensures r.Ok? ==> r.value.0 == st
    ensures r.Ok? ==> r.value.1 == (if host.Some? then host.value else -1)
    ensures r.Ok? ==> -1 <= r.value.1 <= size
  {
    match FileForFd(st, fd)
    case Fatal => Fatal
    case Ok(None) => Fatal
    case Ok(Some(_)) =>
      match host
      case None => Ok((st, -1))
      case Some(n) => if n > I32_MAX then Fatal else Ok((st, n as int))
  }
}
