/** The low-level command as the 203 machine words of `LowCmd_` on a little-endian host, checksum last.

    Words 0-5 are the header, words 6-185 twenty motors of nine words each, words 186-201 the
    remaining fields and word 202 the checksum. The bit pattern of a float is a parameter.
 */
module LowCommand {
  import opened Words
  import Crc32

  const WORDS: nat := 203
  const JOINTS: nat := 12
  const MOTORS: nat := 20

  type FloatBits = real -> Word

  const POS_STOP: real := 2146000000.0
  const VEL_STOP: real := 16000.0

  /** A vector with one entry per leg joint. */
  type Joints = s: seq<real> | |s| == JOINTS witness seq(JOINTS, _ => 0.0)

  function Fill(x: real): Joints {
    seq(JOINTS, _ => x)
  }

  /** The five arrays of `BasicRobotInterface` that a command is built from. */
  datatype Settings = Settings(jposDes: Joints, jvelDes: Joints, kp: Joints, kd: Joints, tauFf: Joints)

  function WordOf(n: nat): Word {
    seq(32, i requires 0 <= i < 32 => (n / Pow2(31 - i)) % 2 == 1)
  }

  function Pow2(n: nat): (r: nat)
    ensures r > 0
  {
    if n == 0 then 1 else 2 * Pow2(n - 1)
  }

  /** Word `j` belongs to motor `Motor(j)` and is that motor's word `Field(j)`. */
  predicate IsMotorWord(j: nat) {
    6 <= j < 186
  }

  function Motor(j: nat): nat
    requires IsMotorWord(j)
  {
    (j - 6) / 9
  }

  function Field(j: nat): nat
    requires IsMotorWord(j)
  {
    (j - 6) % 9
  }

  /** The words that `SetCommand` writes: fields q, dq, tau, kp and kd of the twelve leg motors. */
  predicate IsSetting(j: nat) {
    IsMotorWord(j) && Motor(j) < JOINTS && 1 <= Field(j) <= 5
  }

  /** What `InitLowCmd` leaves in word `j`. */
  function InitialWord(enc: FloatBits, j: nat): Word {
    if j == 0 then WordOf(0x00FFEFFE)
    else if !IsMotorWord(j) then Zeros()
    else match Field(j)
      case 0 => WordOf(1)
      case 1 => enc(POS_STOP)
      case 2 => enc(VEL_STOP)
      case 3 => enc(0.0)
      case 4 => enc(0.0)
      case 5 => enc(0.0)
      case _ => Zeros()
  }

  /** The array behind each written field, in the order of the fields of `MotorCmd_`. */
  function Component(s: Settings, field: nat): Joints {
    match field
    case 1 => s.jposDes
    case 2 => s.jvelDes
    case 3 => s.tauFf
    case 4 => s.kp
    case _ => s.kd
  }

  function SettingWord(enc: FloatBits, s: Settings, j: nat): Word
    requires IsSetting(j)
  {
    enc(Component(s, Field(j))[Motor(j)])
  }

  /** The command without its checksum, as a function of the settings alone. */
  function Body(enc: FloatBits, s: Settings): (b: seq<Word>)
    ensures |b| == WORDS - 1
  {
    seq(WORDS - 1, j requires 0 <= j < WORDS - 1 =>
      if IsSetting(j) then SettingWord(enc, s, j) else InitialWord(enc, j))
  }

  function Command(enc: FloatBits, s: Settings): (c: seq<Word>)
    ensures |c| == WORDS
  {
    Body(enc, s) + [Crc32.Crc(Body(enc, s))]
  }

  /** A default-constructed `LowCmd_`, which is what is published before the first control step. */
  function Default(): (c: seq<Word>)
    ensures |c| == WORDS
  {
    seq(WORDS, _ => Zeros())
  }

  /** Checking a built command, checksum word included, gives zero. */
  lemma CommandResidue(enc: FloatBits, s: Settings)
    ensures Crc32.Crc(Command(enc, s)) == Zeros()
  {
    Crc32.ZeroResidue(Body(enc, s), Crc32.Crc(Body(enc, s)));
  }

  /** The default command does not pass the check. */
  lemma DefaultResidue()
    ensures Crc32.Crc(Default()) != Zeros()
  {
    var body: seq<Word> := seq(WORDS - 1, _ => Zeros());
    assert Default() == body + [Zeros()];
    Crc32.ZeroResidue(body, Zeros());
    ZeroMessage(body);
    Crc32.FeedZero(Crc32.MessageBits(body));
    Crc32.FeedInjective(Ones(), Zeros(), Crc32.MessageBits(body));
    assert Ones()[0] != Zeros()[0];
  }

  lemma {:induction false} ZeroMessage(words: seq<Word>)
    requires forall i :: 0 <= i < |words| ==> words[i] == Zeros()
    ensures forall i :: 0 <= i < |Crc32.MessageBits(words)| ==> !Crc32.MessageBits(words)[i]
  {
    if words != [] {
      ZeroMessage(words[..|words| - 1]);
    }
  }

  /** Where joint `m`'s field `f` sits. */
  function Slot(m: nat, f: nat): nat {
    6 + 9 * m + f
  }

  lemma SlotIsSetting(m: nat, f: nat)
    requires m < JOINTS && 1 <= f <= 5
    ensures IsSetting(Slot(m, f)) && Motor(Slot(m, f)) == m && Field(Slot(m, f)) == f
  {
  }

  lemma CommandAt(enc: FloatBits, s: Settings, m: nat, f: nat)
    requires m < JOINTS && 1 <= f <= 5
    ensures Command(enc, s)[Slot(m, f)] == enc(Component(s, f)[m])
  {
    SlotIsSetting(m, f);
  }

  /** The five settings of joint `m`, word by word. */
  lemma CommandSettings(enc: FloatBits, s: Settings, m: nat)
    requires m < 12
    ensures var c := Command(enc, s);
            && c[7 + 9 * m] == enc(s.jposDes[m]) && c[8 + 9 * m] == enc(s.jvelDes[m]) && c[9 + 9 * m] == enc(s.tauFf[m])
            && c[10 + 9 * m] == enc(s.kp[m]) && c[11 + 9 * m] == enc(s.kd[m])
  {
    CommandAt(enc, s, m, 1);
    CommandAt(enc, s, m, 2);
    CommandAt(enc, s, m, 3);
    CommandAt(enc, s, m, 4);
    CommandAt(enc, s, m, 5);
  }

  lemma {:induction false} WordOfValue(n: nat, k: nat)
    requires k <= 32 && n < 0x1_0000_0000
    ensures Value(WordOf(n), k) == n / Pow2(32 - k)
  {
    if k == 0 {
      PowerOf32();
    } else {
      WordOfValue(n, k - 1);
      HalfStep(n, 32 - k);
    }
  }

  lemma PowerOf32()
    ensures Pow2(32) == 0x1_0000_0000
  {
    assert Pow2(8) == 256;
    assert Pow2(16) == 0x1_0000;
    assert Pow2(24) == 0x100_0000;
  }

  lemma HalfStep(n: nat, e: nat)
    ensures n / Pow2(e) == 2 * (n / Pow2(e + 1)) + (n / Pow2(e)) % 2
  {
    var p, q := Pow2(e), n / Pow2(e);
    assert n == p * q + n % p;
    var h := q / 2;
    assert q == 2 * h + q % 2;
    assert n == (2 * p) * h + (p * (q % 2) + n % p);
    DivideIs(n, 2 * p, h, p * (q % 2) + n % p);
  }

  lemma DivideIs(n: nat, d: nat, h: nat, rest: nat)
    requires d > 0 && n == d * h + rest && rest < d
    ensures n / d == h
  {
    var k := n / d;
    assert n == d * k + n % d;
    if k < h {
      Multiples(d, k + 1, h);
    } else if h < k {
      Multiples(d, h + 1, k);
    }
  }

  lemma Multiples(d: nat, j: nat, k: nat)
    requires j <= k
    ensures d * j <= d * k
  {
  }

  /** The header word, and the words that stay zero. */
  lemma HeaderWord(enc: FloatBits, s: Settings, j: nat)
    ensures Value(Command(enc, s)[0], 32) == 0x00FF_EFFE
    ensures 1 <= j < 6 || 186 <= j < 202 ==> Command(enc, s)[j] == Zeros()
  {
    WordOfValue(0x00FF_EFFE, 32);
    assert Command(enc, s)[0] == InitialWord(enc, 0);
    if 1 <= j < 6 || 186 <= j < 202 {
      assert Command(enc, s)[j] == InitialWord(enc, j);
    }
  }

  /** The motor words that are not settings: every motor's mode, the stop values of the eight other motors, and zeros. */
  lemma UntouchedWord(enc: FloatBits, s: Settings, m: nat, f: nat)
    requires m < 20 && f < 9 && (m >= 12 || f == 0 || f >= 6)
    ensures var w := Command(enc, s)[6 + 9 * m + f];
            match f
            case 0 => Value(w, 32) == 1
            case 1 => w == enc(2146000000.0)
            case 2 => w == enc(16000.0)
            case 3 => w == enc(0.0)
            case 4 => w == enc(0.0)
            case 5 => w == enc(0.0)
            case _ => w == Zeros()
  {
    SlotOf(m, f);
    WordOfValue(1, 32);
    var j := 6 + 9 * m + f;
    assert !IsSetting(j);
    assert Command(enc, s)[j] == InitialWord(enc, j);
  }

  lemma SlotOf(m: nat, f: nat)
    requires m < 20 && f < 9
    ensures IsMotorWord(6 + 9 * m + f) && Motor(6 + 9 * m + f) == m && Field(6 + 9 * m + f) == f
  {
  }

  /** Every setting of every joint is in the command: if floats are encoded injectively, so are settings. */
  lemma CommandInjective(enc: FloatBits, s: Settings, t: Settings)
    requires forall x, y :: enc(x) == enc(y) ==> x == y
    ensures Command(enc, s) == Command(enc, t) <==> s == t
  {
    if Command(enc, s) == Command(enc, t) {
      forall f | 1 <= f <= 5 ensures Component(s, f) == Component(t, f) {
        forall m | 0 <= m < JOINTS ensures Component(s, f)[m] == Component(t, f)[m] {
          CommandAt(enc, s, m, f);
          CommandAt(enc, t, m, f);
        }
      }
      assert Component(s, 1) == s.jposDes && Component(s, 2) == s.jvelDes && Component(s, 3) == s.tauFf;
      assert Component(s, 4) == s.kp && Component(s, 5) == s.kd;
    }
  }
}
