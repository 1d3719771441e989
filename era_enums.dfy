/**
 * The integer enumerations of the eraTW mini-game that the saved state
 * refers to. Each enumeration converts to its integer value and back;
 * converting an integer outside the declared range fails, as
 * constructing a Python `IntEnum` from an unknown value raises.
 */
module EraEnums {
  import opened Wrappers

  datatype Weather = Sunny | Cloudy | Rainy | Snowy | Foggy | Stormy

  function WeatherValue(w: Weather): (v: int)
    ensures 0 <= v < 6
  {
    match w
    case Sunny => 0
    case Cloudy => 1
    case Rainy => 2
    case Snowy => 3
    case Foggy => 4
    case Stormy => 5
  }

  /** `Weather(v)`: defined exactly on 0..5 and inverse to `WeatherValue`. */
  function WeatherOf(v: int): (r: Option<Weather>)
    ensures r.Some? <==> 0 <= v < 6
    ensures r.Some? ==> WeatherValue(r.value) == v
  {
    if v == 0 then Some(Sunny)
    else if v == 1 then Some(Cloudy)
    else if v == 2 then Some(Rainy)
    else if v == 3 then Some(Snowy)
    else if v == 4 then Some(Foggy)
    else if v == 5 then Some(Stormy)
    else None
  }

  datatype Location =
    | HakureiShrine | ScarletManor | HumanVillage | BambooForest | YoukaiMountain
    | MoriyaShrine | Netherworld | Eientei | MyourenTemple | Underground

  function LocationValue(l: Location): (v: int)
    ensures 0 <= v < 10
  {
    match l
    case HakureiShrine => 0
    case ScarletManor => 1
    case HumanVillage => 2
    case BambooForest => 3
    case YoukaiMountain => 4
    case MoriyaShrine => 5
    case Netherworld => 6
    case Eientei => 7
    case MyourenTemple => 8
    case Underground => 9
  }

  /** `Location(v)`: defined exactly on 0..9 and inverse to `LocationValue`. */
  function LocationOf(v: int): (r: Option<Location>)
    ensures r.Some? <==> 0 <= v < 10
    ensures r.Some? ==> LocationValue(r.value) == v
  {
    if v == 0 then Some(HakureiShrine)
    else if v == 1 then Some(ScarletManor)
    else if v == 2 then Some(HumanVillage)
    else if v == 3 then Some(BambooForest)
    else if v == 4 then Some(YoukaiMountain)
    else if v == 5 then Some(MoriyaShrine)
    else if v == 6 then Some(Netherworld)
    else if v == 7 then Some(Eientei)
    else if v == 8 then Some(MyourenTemple)
    else if v == 9 then Some(Underground)
    else None
  }

  datatype GameState = Idle | Exploring | Interacting | Dating | Battle | Sleeping

  function GameStateValue(g: GameState): (v: int)
    ensures 0 <= v < 6
  {
    match g
    case Idle => 0
    case Exploring => 1
    case Interacting => 2
    case Dating => 3
    case Battle => 4
    case Sleeping => 5
  }

  /** `GameState(v)`: defined exactly on 0..5 and inverse to `GameStateValue`. */
  function GameStateOf(v: int): (r: Option<GameState>)
    ensures r.Some? <==> 0 <= v < 6
    ensures r.Some? ==> GameStateValue(r.value) == v
  {
    if v == 0 then Some(Idle)
    else if v == 1 then Some(Exploring)
    else if v == 2 then Some(Interacting)
    else if v == 3 then Some(Dating)
    else if v == 4 then Some(Battle)
    else if v == 5 then Some(Sleeping)
    else None
  }

  datatype TimeOfDay = Dawn | Morning | Afternoon | Evening | Night

  /** Each enumeration value survives the trip through its integer. */
  lemma ValuesRoundTrip(w: Weather, l: Location, g: GameState)
    ensures WeatherOf(WeatherValue(w)) == Some(w)
    ensures LocationOf(LocationValue(l)) == Some(l)
    ensures GameStateOf(GameStateValue(g)) == Some(g)
  {
  }
}
