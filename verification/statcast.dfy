/**
  The pitch-tracking tables. A raw Statcast row carries many columns; a
  processed row keeps exactly seven of them (pitch type, release speed,
  release spin rate, the two break components, batter handedness and game
  date). The measurements are carried values that nothing here computes on.
  A table is a `seq` of rows in frame order.
 */
module Statcast {

  /** One entry of a nullable column: pandas stores a missing entry as NaN. */
  datatype Cell<T> = Missing | Present(value: T)

  /** The value of one entry, whatever the column's type. */
  datatype Value = Null | Text(text: string) | Number(number: real) | Date(ordinal: int)

  /** The columns a processed row keeps. */
  datatype Column = PitchType | ReleaseSpeed | ReleaseSpinRate | PfxX | PfxZ | Stand | GameDate

  function ColumnName(c: Column): string
  {
    match c
    case PitchType => "pitch_type"
    case ReleaseSpeed => "release_speed"
    case ReleaseSpinRate => "release_spin_rate"
    case PfxX => "pfx_x"
    case PfxZ => "pfx_z"
    case Stand => "stand"
    case GameDate => "game_date"
  }

  /** The label the classifier predicts. */
  const TargetColumn: Column := PitchType
  const FeatureColumns: seq<Column> := [ReleaseSpeed, ReleaseSpinRate, PfxX, PfxZ, Stand]
  const MetadataColumn: Column := GameDate
  /** The processed frame's columns, in frame order. */
  const AllColumns: seq<Column> := [TargetColumn] + FeatureColumns + [MetadataColumn]

  function TextValue(c: Cell<string>): Value
  {
    match c
    case Missing => Null
    case Present(s) => Text(s)
  }

  function NumberValue(c: Cell<real>): Value
  {
    match c
    case Missing => Null
    case Present(x) => Number(x)
  }

  /** The entry of column `c` in a row with the given seven column entries. */
  function Entry(
    c: Column,
    pitchType: Cell<string>,
    releaseSpeed: Cell<real>,
    releaseSpinRate: Cell<real>,
    pfxX: Cell<real>,
    pfxZ: Cell<real>,
    stand: Cell<string>,
    gameDate: int): Value
  {
      match c
      case PitchType => TextValue(pitchType)
      case ReleaseSpeed => NumberValue(releaseSpeed)
      case ReleaseSpinRate => NumberValue(releaseSpinRate)
      case PfxX => NumberValue(pfxX)
      case PfxZ => NumberValue(pfxZ)
      case Stand => TextValue(stand)
      case GameDate => Date(gameDate)
  }

  /** One pitch of a processed per-pitcher frame. */
  datatype Pitch = Pitch(
    pitchType: Cell<string>,
    releaseSpeed: Cell<real>,
    releaseSpinRate: Cell<real>,
    pfxX: Cell<real>,
    pfxZ: Cell<real>,
    stand: Cell<string>,
    gameDate: int)
  {
    /** The entry of column `c` of this row. */
    function Get(c: Column): Value
    {
      Entry(c, pitchType, releaseSpeed, releaseSpinRate, pfxX, pfxZ, stand, gameDate)
    }
  }

  /**
    One pitch as the Statcast service returns it: the seven columns kept by
    processing, the game type code, and every other column by name.
   */
  datatype RawPitch = RawPitch(
    gameType: Cell<string>,
    pitchType: Cell<string>,
    releaseSpeed: Cell<real>,
    releaseSpinRate: Cell<real>,
    pfxX: Cell<real>,
    pfxZ: Cell<real>,
    stand: Cell<string>,
    gameDate: int,
    otherColumns: map<string, Value>)
  {
    function Get(c: Column): Value
    {
      Entry(c, pitchType, releaseSpeed, releaseSpinRate, pfxX, pfxZ, stand, gameDate)
    }
  }

  /** One row of a feature frame: a processed row without its pitch type. */
  datatype Features = Features(
    releaseSpeed: Cell<real>,
    releaseSpinRate: Cell<real>,
    pfxX: Cell<real>,
    pfxZ: Cell<real>,
    stand: Cell<string>,
    gameDate: int)
  {
    function Get(c: Column): Value
      requires c != PitchType
    {
      Entry(c, Missing, releaseSpeed, releaseSpinRate, pfxX, pfxZ, stand, gameDate)
    }
  }

  /** Rejoins a feature row with its label: the inverse of splitting them. */
  function WithPitchType(x: Features, y: Cell<string>): (p: Pitch)
    ensures p.pitchType == y
    ensures forall c :: c != PitchType ==> p.Get(c) == x.Get(c)
  {
    Pitch(y, x.releaseSpeed, x.releaseSpinRate, x.pfxX, x.pfxZ, x.stand, x.gameDate)
  }

  /**
    The row with its pitch-type column dropped: every other column keeps its
    entry, and the dropped column is exactly the one that rejoins it.
   */
  function DropPitchType(p: Pitch): (x: Features)
    ensures forall c :: c != PitchType ==> x.Get(c) == p.Get(c)
    ensures WithPitchType(x, p.pitchType) == p
  {
    Features(p.releaseSpeed, p.releaseSpinRate, p.pfxX, p.pfxZ, p.stand, p.gameDate)
  }

  function PitchTypeOf(p: Pitch): Cell<string>
  {
    p.pitchType
  }

  /** Why an operation has no result: the frame is empty, so it has no latest game date. */
  datatype Error = EmptyFrame

  datatype Result<T> = Ok(value: T) | Err(error: Error)
}
