/** `getCoreFrequency` and `getMaxCoreFrequency`: the current and maximum
    clock of a core, read in kHz from the cpufreq files of sysfs and returned
    in MHz, or 0 when the file is missing or cannot be read or parsed. The
    file system is a map from paths of existing files to their text, `None`
    when reading the file throws. */
module CpuFrequency {
  import opened Wrappers
  import opened Numerics
  import opened Text

  type Files = map<string, Option<string>>

  const CPU_DIR: string := "/sys/devices/system/cpu/cpu"
  const CUR_FREQ: string := "/cpufreq/scaling_cur_freq"
  const MAX_FREQ: string := "/cpufreq/scaling_max_freq"

  function CurFreqPath(coreIndex: int): string
  {
    CPU_DIR + IntToString(coreIndex) + CUR_FREQ
  }

  function MaxFreqPath(coreIndex: int): string
  {
    CPU_DIR + IntToString(coreIndex) + MAX_FREQ
  }

  /** Each core has its own pair of files, and the two files differ. */
  lemma PathsAreDistinct(i: int, j: int)
    ensures CurFreqPath(i) == CurFreqPath(j) ==> i == j
    ensures MaxFreqPath(i) == MaxFreqPath(j) ==> i == j
    ensures CurFreqPath(i) != MaxFreqPath(j)
  {
    if CurFreqPath(i) == CurFreqPath(j) {
      MiddleEqual(CPU_DIR, IntToString(i), IntToString(j), CUR_FREQ);
      IntToStringInjective(i, j);
    }
    if MaxFreqPath(i) == MaxFreqPath(j) {
      MiddleEqual(CPU_DIR, IntToString(i), IntToString(j), MAX_FREQ);
      IntToStringInjective(i, j);
    }
    FromEnd(CPU_DIR, IntToString(i), CUR_FREQ, 8);
    FromEnd(CPU_DIR, IntToString(j), MAX_FREQ, 8);
    assert CUR_FREQ[|CUR_FREQ| - 8] == 'c' && MAX_FREQ[|MAX_FREQ| - 8] == 'm';
  }

  lemma MiddleEqual(a: string, x: string, y: string, b: string)
    requires a + x + b == a + y + b
    ensures x == y
  {
    var s, t := a + x + b, a + y + b;
    assert |x| == |y|;
    assert x == s[|a|..|a| + |x|];
    assert y == t[|a|..|a| + |y|];
  }

  /** The k-th character from the end of `a + x + b` lies in `b`. */
  lemma FromEnd(a: string, x: string, b: string, k: nat)
    requires 0 < k <= |b|
    ensures (a + x + b)[|a + x + b| - k] == b[|b| - k]
  {
  }

  /** The value of one file: its trimmed text as a `Long` divided by 1000
      (toward zero), or 0 when the file is missing, unreadable or not a number. */
  function FrequencyMhz(files: Files, path: string): (mhz: int)
    ensures path !in files ==> mhz == 0
    ensures path in files && files[path].None? ==> mhz == 0
    ensures path in files && files[path].Some? && ParseLong(Trim(files[path].value)).None? ==> mhz == 0
    ensures path in files && files[path].Some? && ParseLong(Trim(files[path].value)).Some? ==>
              mhz == TruncDiv(ParseLong(Trim(files[path].value)).value, 1000)
  {
    if path !in files then 0
    else match files[path]
      case None => 0
      case Some(text) =>
        match ParseLong(Trim(text))
        case None => 0
        case Some(khz) => TruncDiv(khz, 1000)
  }

  /** `getCoreFrequency`. */
  function CoreFrequency(files: Files, coreIndex: int): (mhz: int)
    ensures CurFreqPath(coreIndex) !in files ==> mhz == 0
    ensures mhz == FrequencyMhz(files, CurFreqPath(coreIndex))
  {
    FrequencyMhz(files, CurFreqPath(coreIndex))
  }

  /** `getMaxCoreFrequency`. */
  function MaxCoreFrequency(files: Files, coreIndex: int): (mhz: int)
    ensures MaxFreqPath(coreIndex) !in files ==> mhz == 0
    ensures mhz == FrequencyMhz(files, MaxFreqPath(coreIndex))
  {
    FrequencyMhz(files, MaxFreqPath(coreIndex))
  }

  /** A file holding a kHz figure followed by a newline gives that figure in
      whole MHz. */
  lemma FrequencyOfWrittenValue(files: Files, path: string, khz: int)
    requires IsLong(khz) && khz >= 0
    requires path in files && files[path] == Some(IntToString(khz) + "\n")
    ensures FrequencyMhz(files, path) == khz / 1000
    ensures FrequencyMhz(files, path) * 1000 <= khz < FrequencyMhz(files, path) * 1000 + 1000
  {
    TrimRendered(khz);
    ParseLongOfIntToString(khz);
  }

  /** Trimming a rendered number followed by a newline leaves the number. */
  lemma TrimRendered(n: int)
    ensures Trim(IntToString(n) + "\n") == IntToString(n)
  {
    var s := IntToString(n);
    RenderedEdges(n);
    assert TrimStart(s + "\n") == s + "\n";
    assert (s + "\n")[..|s|] == s;
    assert TrimEnd(s + "\n") == TrimEnd(s);
  }

  lemma RenderedEdges(n: int)
    ensures !IsWhitespace(IntToString(n)[0])
    ensures IsDigit(IntToString(n)[|IntToString(n)| - 1])
  {
    var s := IntToString(n);
    if n < 0 {
      var d := NatToString(-n);
      assert s == "-" + d;
      assert s[|s| - 1] == d[|d| - 1];
    }
  }
}
