/** The computing part of the tracker forms (co2_tracker.py): the four CO₂
    formulas, the checks of the detailed-entry form and the filtered,
    newest-first entry history. Amounts are kilograms of CO₂. */
module Co2Tracker {
  import opened Entries
  import opened Database

  // ---------------------------------------------------------------------
  // Sign facts on real arithmetic, kept apart so each proof stays linear

  lemma MulNonNegative(a: real, b: real)
    requires a >= 0.0 && b >= 0.0
    ensures a * b >= 0.0
  {
  }

  lemma DivNonNegative(a: real, n: real)
    requires a >= 0.0 && n > 0.0
    ensures a / n >= 0.0
  {
  }

  /** The shape shared by trips and other activities: a factor adjusted by a
      multiplier, divided among `people` when `splits` holds and there is more
      than one of them, times the amount (km, or the activity quantity). */
  function SharedAmount(factor: real, multiplier: real, amount: real, people: int, splits: bool): real
  {
    var adjusted := factor * multiplier;
    var perPerson := if people > 1 && splits then adjusted / people as real else adjusted;
    perPerson * amount
  }

  lemma SharedAmountNonNegative(factor: real, multiplier: real, amount: real, people: int, splits: bool)
    requires factor >= 0.0 && multiplier >= 0.0 && amount >= 0.0
    ensures SharedAmount(factor, multiplier, amount, people, splits) >= 0.0
  {
    var adjusted := factor * multiplier;
    MulNonNegative(factor, multiplier);
    var perPerson := if people > 1 && splits then adjusted / people as real else adjusted;
    if people > 1 && splits {
      DivNonNegative(adjusted, people as real);
    }
    MulNonNegative(perPerson, amount);
  }

  /** Sharing among `people` divides the amount of one person by their number. */
  lemma SharedAmountSplits(factor: real, multiplier: real, amount: real, people: int)
    requires people > 1
    ensures SharedAmount(factor, multiplier, amount, people, true) * people as real
            == SharedAmount(factor, multiplier, amount, 1, true)
  {
    var adjusted := factor * multiplier;
    var n := people as real;
    calc {
      SharedAmount(factor, multiplier, amount, people, true) * n;
      (adjusted / n) * amount * n;
      { assert (adjusted / n) * n == adjusted; }
      adjusted * amount;
    }
  }

  // ---------------------------------------------------------------------
  // Transportation

  datatype TransportMode =
    | CarGasoline | SuvGasoline | ElectricCar | Motorcycle | Bus | Train | Metro
    | DomesticFlight | InternationalFlight | Bicycle | Walking

  /** kg CO₂ per km. */
  function TransportBase(m: TransportMode): (factor: real)
    ensures factor >= 0.0
  {
    match m
    case CarGasoline => 0.231
    case SuvGasoline => 0.32
    case ElectricCar => 0.05
    case Motorcycle => 0.18
    case Bus => 0.089
    case Train => 0.041
    case Metro => 0.028
    case DomesticFlight => 0.254
    case InternationalFlight => 0.273
    case Bicycle => 0.0
    case Walking => 0.0
  }

  datatype FuelEfficiency = AverageFuel | HighFuelEfficiency | LowFuelEfficiency

  function FuelMultiplier(e: FuelEfficiency): (factor: real)
    ensures factor >= 0.0
  {
    match e
    case AverageFuel => 1.0
    case HighFuelEfficiency => 0.8
    case LowFuelEfficiency => 1.3
  }

  predicate IsActiveTravel(m: TransportMode)
  {
    m == Bicycle || m == Walking
  }

  /** CO₂ of a trip: the per-km factor, adjusted for fuel efficiency and shared
      among the passengers unless one cycles or walks, times the distance. */
  function TransportCo2(mode: TransportMode, efficiency: FuelEfficiency, distance: real, passengers: int): real
  {
    SharedAmount(TransportBase(mode), FuelMultiplier(efficiency), distance, passengers, !IsActiveTravel(mode))
  }

  lemma TransportNonNegative(mode: TransportMode, efficiency: FuelEfficiency, distance: real, passengers: int)
    requires distance >= 0.0 && passengers >= 1
    ensures TransportCo2(mode, efficiency, distance, passengers) >= 0.0
  {
    SharedAmountNonNegative(TransportBase(mode), FuelMultiplier(efficiency), distance, passengers, !IsActiveTravel(mode));
  }

  /** Cycling and walking never emit, whatever the other inputs. */
  lemma ActiveTravelEmitsNothing(mode: TransportMode, efficiency: FuelEfficiency, distance: real, passengers: int)
    requires IsActiveTravel(mode)
    ensures TransportCo2(mode, efficiency, distance, passengers) == 0.0
  {
  }

  /** 10 km alone in a gasoline car of average efficiency: 2.31 kg. */
  lemma CarTripExample()
    ensures TransportCo2(CarGasoline, AverageFuel, 10.0, 1) == 2.31
  {
  }

  /** A motorised trip shared by `passengers` people costs each of them the
      solo trip divided by their number. */
  lemma SharedTripSplits(mode: TransportMode, efficiency: FuelEfficiency, distance: real, passengers: int)
    requires passengers > 1 && !IsActiveTravel(mode)
    ensures TransportCo2(mode, efficiency, distance, passengers) * passengers as real
            == TransportCo2(mode, efficiency, distance, 1)
  {
    SharedAmountSplits(TransportBase(mode), FuelMultiplier(efficiency), distance, passengers);
  }

  // ---------------------------------------------------------------------
  // Diet

  datatype FoodItem =
    | Beef | Lamb | Pork | Chicken | FishFarmed | Seafood | DairyMilk | Cheese | Eggs
    | Bread | Rice | Potatoes | Vegetables | Fruits | LegumesBeans | Nuts | Coffee | Beer | Wine

  /** kg CO₂ per kg or per liter. */
  function FoodBase(f: FoodItem): (factor: real)
    ensures factor >= 0.0
  {
    match f
    case Beef => 27.0
    case Lamb => 39.2
    case Pork => 12.1
    case Chicken => 6.9
    case FishFarmed => 13.6
    case Seafood => 18.2
    case DairyMilk => 3.2
    case Cheese => 13.5
    case Eggs => 4.2
    case Bread => 1.3
    case Rice => 2.7
    case Potatoes => 0.5
    case Vegetables => 2.0
    case Fruits => 1.1
    case LegumesBeans => 0.7
    case Nuts => 2.3
    case Coffee => 16.9
    case Beer => 1.3
    case Wine => 2.9
  }

  datatype FoodOrigin = Local | Regional | National | International

  function OriginMultiplier(o: FoodOrigin): (factor: real)
    ensures factor >= 0.0
  {
    match o
    case Local => 1.0
    case Regional => 1.2
    case National => 1.5
    case International => 2.0
  }

  datatype Preparation = HomeCooked | Restaurant | FastFood | Processed

  function PreparationMultiplier(p: Preparation): (factor: real)
    ensures factor >= 0.0
  {
    match p
    case HomeCooked => 1.0
    case Restaurant => 1.3
    case FastFood => 1.8
    case Processed => 1.5
  }

  /** CO₂ of a food item: its factors from the tables, put through the diet
      formula. */
  function DietCo2(food: FoodItem, origin: FoodOrigin, prep: Preparation, organic: bool,
                   quantity: real, waste: int): real
  {
    DietFormula(FoodBase(food), OriginMultiplier(origin), PreparationMultiplier(prep), organic, quantity, waste)
  }

  /** The base factor times the origin and preparation factors, 10% off when
      organic, times the quantity, inflated by the wasted share (`waste`
      percent, 0 to 50 on the form). */
  function DietFormula(base: real, originFactor: real, prepFactor: real, organic: bool,
                       quantity: real, waste: int): real
  {
    var prepCo2 := base * originFactor * prepFactor;
    var adjusted := if organic then prepCo2 * 0.9 else prepCo2;
    WithWaste(adjusted * quantity, waste)
  }

  /** The wasted share, `waste` percent, inflates the amount. */
  function WithWaste(amount: real, waste: int): real
  {
    amount * (1.0 + waste as real / 100.0)
  }

  lemma DietNonNegative(food: FoodItem, origin: FoodOrigin, prep: Preparation, organic: bool,
                        quantity: real, waste: int)
    requires quantity >= 0.0 && 0 <= waste <= 50
    ensures DietCo2(food, origin, prep, organic, quantity, waste) >= 0.0
  {
    DietFormulaBounds(FoodBase(food), OriginMultiplier(origin), PreparationMultiplier(prep), organic, quantity, waste);
  }

  /** The organic choice costs exactly 90% of the conventional one. */
  lemma OrganicSavesTenPercent(food: FoodItem, origin: FoodOrigin, prep: Preparation,
                               quantity: real, waste: int)
    ensures DietCo2(food, origin, prep, true, quantity, waste)
            == 0.9 * DietCo2(food, origin, prep, false, quantity, waste)
  {
    DietFormulaOrganic(FoodBase(food), OriginMultiplier(origin), PreparationMultiplier(prep), quantity, waste);
  }

  /** Waste inflates the no-waste amount by a factor between 1 and 1.5. */
  lemma WasteInflates(food: FoodItem, origin: FoodOrigin, prep: Preparation, organic: bool,
                      quantity: real, waste: int)
    requires quantity >= 0.0 && 0 <= waste <= 50
    ensures DietCo2(food, origin, prep, organic, quantity, 0) <= DietCo2(food, origin, prep, organic, quantity, waste)
    ensures DietCo2(food, origin, prep, organic, quantity, waste) <= 1.5 * DietCo2(food, origin, prep, organic, quantity, 0)
  {
    DietFormulaBounds(FoodBase(food), OriginMultiplier(origin), PreparationMultiplier(prep), organic, quantity, waste);
  }

  /** With non-negative factors and quantity the diet formula is non-negative,
      and waste inflates the waste-free amount by a factor between 1 and 1.5. */
  lemma DietFormulaBounds(base: real, originFactor: real, prepFactor: real, organic: bool,
                          quantity: real, waste: int)
    requires base >= 0.0 && originFactor >= 0.0 && prepFactor >= 0.0
    requires quantity >= 0.0 && 0 <= waste <= 50
    ensures DietFormula(base, originFactor, prepFactor, organic, quantity, waste) >= 0.0
    ensures DietFormula(base, originFactor, prepFactor, organic, quantity, 0)
            <= DietFormula(base, originFactor, prepFactor, organic, quantity, waste)
            <= 1.5 * DietFormula(base, originFactor, prepFactor, organic, quantity, 0)
  {
    var prepCo2 := base * originFactor * prepFactor;
    MulNonNegative(base, originFactor);
    MulNonNegative(base * originFactor, prepFactor);
    var adjusted := if organic then prepCo2 * 0.9 else prepCo2;
    MulNonNegative(adjusted, quantity);
    WasteBetween(adjusted * quantity, waste);
  }

  lemma DietFormulaOrganic(base: real, originFactor: real, prepFactor: real, quantity: real, waste: int)
    ensures DietFormula(base, originFactor, prepFactor, true, quantity, waste)
            == 0.9 * DietFormula(base, originFactor, prepFactor, false, quantity, waste)
  {
    var prepCo2 := base * originFactor * prepFactor;
    var f := 1.0 + waste as real / 100.0;
    assert prepCo2 * 0.9 * quantity * f == 0.9 * (prepCo2 * quantity * f);
  }

  lemma WasteBetween(base: real, waste: int)
    requires base >= 0.0 && 0 <= waste <= 50
    ensures WithWaste(base, 0) == base
    ensures base <= WithWaste(base, waste) <= 1.5 * base
  {
    var f := 1.0 + waste as real / 100.0;
    assert WithWaste(base, waste) == base * f;
    MulNonNegative(base, f - 1.0);
    assert base * (f - 1.0) == base * f - base;
    MulNonNegative(base, 1.5 - f);
    assert base * (1.5 - f) == 1.5 * base - base * f;
  }

  // ---------------------------------------------------------------------
  // Electricity

  datatype EnergySource =
    | GridElectricity | SolarEnergy | WindEnergy | Hydroelectric | Nuclear | NaturalGas | Oil | Coal

  /** kg CO₂ per kWh. */
  function EnergyBase(s: EnergySource): (factor: real)
    ensures factor >= 0.0
  {
    match s
    case GridElectricity => 0.68
    case SolarEnergy => 0.02
    case WindEnergy => 0.01
    case Hydroelectric => 0.024
    case Nuclear => 0.012
    case NaturalGas => 0.49
    case Oil => 0.82
    case Coal => 1.05
  }

  /** Of the eight source names only "💡 Grid Electricity" contains "Grid". */
  predicate IsGrid(s: EnergySource)
  {
    s == GridElectricity
  }

  datatype ApplianceEfficiency = StandardAppliance | EnergyStar | HighEfficiencyAppliance | OldInefficient

  function ApplianceMultiplier(e: ApplianceEfficiency): (factor: real)
    ensures factor >= 0.0
  {
    match e
    case StandardAppliance => 1.0
    case EnergyStar => 0.8
    case HighEfficiencyAppliance => 0.7
    case OldInefficient => 1.4
  }

  datatype TimeOfUse = PeakHours | OffPeak | Weekend | Night

  function TimeMultiplier(t: TimeOfUse): (factor: real)
    ensures factor >= 0.0
  {
    match t
    case PeakHours => 1.2
    case OffPeak => 0.9
    case Weekend => 0.95
    case Night => 0.85
  }

  /** The grid factor left after a renewable share of `mix` percent, whose
      emissions count 90% less. */
  function RenewableFactor(mix: int): real
  {
    1.0 - (mix as real / 100.0) * 0.9
  }

  lemma RenewableFactorBounds(mix: int)
    requires 0 <= mix <= 100
    ensures 0.1 <= RenewableFactor(mix) <= 1.0
  {
  }

  /** CO₂ of `kwh` kWh: base factor times appliance efficiency, then the grid
      adjustments. */
  function ElectricityCo2(source: EnergySource, efficiency: ApplianceEfficiency, time: TimeOfUse,
                          mix: int, kwh: real): real
  {
    GridAdjusted(EnergyBase(source) * ApplianceMultiplier(efficiency), IsGrid(source), mix, TimeMultiplier(time)) * kwh
  }

  /** For grid electricity only: the renewable reduction (when the mix is
      positive), then the time-of-use factor. */
  function GridAdjusted(efficient: real, grid: bool, mix: int, timeFactor: real): real
  {
    var renewable := if grid && mix > 0 then efficient * RenewableFactor(mix) else efficient;
    if grid then renewable * timeFactor else renewable
  }

  lemma GridAdjustedNonNegative(efficient: real, grid: bool, mix: int, timeFactor: real)
    requires efficient >= 0.0 && timeFactor >= 0.0 && 0 <= mix <= 100
    ensures GridAdjusted(efficient, grid, mix, timeFactor) >= 0.0
  {
    var renewable := if grid && mix > 0 then efficient * RenewableFactor(mix) else efficient;
    if grid && mix > 0 {
      RenewableFactorBounds(mix);
      MulNonNegative(efficient, RenewableFactor(mix));
    }
    if grid {
      MulNonNegative(renewable, timeFactor);
    }
  }

  lemma ElectricityNonNegative(source: EnergySource, efficiency: ApplianceEfficiency, time: TimeOfUse,
                               mix: int, kwh: real)
    requires 0 <= mix <= 100 && kwh >= 0.0
    ensures ElectricityCo2(source, efficiency, time, mix, kwh) >= 0.0
  {
    ElectricityFormulaNonNegative(EnergyBase(source), ApplianceMultiplier(efficiency), IsGrid(source), mix,
                       TimeMultiplier(time), kwh);
  }

  lemma ElectricityFormulaNonNegative(base: real, appliance: real, grid: bool, mix: int, timeFactor: real, kwh: real)
    requires base >= 0.0 && appliance >= 0.0 && timeFactor >= 0.0 && 0 <= mix <= 100 && kwh >= 0.0
    ensures GridAdjusted(base * appliance, grid, mix, timeFactor) * kwh >= 0.0
  {
    MulNonNegative(base, appliance);
    GridAdjustedNonNegative(base * appliance, grid, mix, timeFactor);
    MulNonNegative(GridAdjusted(base * appliance, grid, mix, timeFactor), kwh);
  }

  /** Off the grid, neither the renewable mix nor the time of use matters. */
  lemma OffGridIgnoresMixAndTime(source: EnergySource, efficiency: ApplianceEfficiency,
                                 time1: TimeOfUse, time2: TimeOfUse, mix1: int, mix2: int, kwh: real)
    requires !IsGrid(source)
    ensures ElectricityCo2(source, efficiency, time1, mix1, kwh)
            == ElectricityCo2(source, efficiency, time2, mix2, kwh)
  {
  }

  // ---------------------------------------------------------------------
  // Other activities

  datatype OtherActivity =
    | GroceryShopping | ClothingPurchase | Electronics | OnlineShopping | OfficeWork | RemoteWork
    | MovieTheater | ConcertEvent | GymFitness | MedicalVisit | PackageDelivery | HotShower
    | Laundry | WasteGeneration

  function ActivityBase(a: OtherActivity): (factor: real)
    ensures factor >= 0.0
  {
    match a
    case GroceryShopping => 3.2
    case ClothingPurchase => 8.5
    case Electronics => 85.0
    case OnlineShopping => 0.5
    case OfficeWork => 6.2
    case RemoteWork => 4.6
    case MovieTheater => 1.8
    case ConcertEvent => 5.5
    case GymFitness => 2.1
    case MedicalVisit => 3.4
    case PackageDelivery => 1.2
    case HotShower => 2.3
    case Laundry => 2.8
    case WasteGeneration => 0.5
  }

  datatype Sustainability = StandardChoice | EcoFriendly | SustainableChoice | RecycledReused

  function SustainabilityMultiplier(s: Sustainability): (factor: real)
    ensures factor >= 0.0
  {
    match s
    case StandardChoice => 1.0
    case EcoFriendly => 0.7
    case SustainableChoice => 0.5
    case RecycledReused => 0.3
  }

  /** The activities whose impact the participants share. */
  predicate IsShared(a: OtherActivity)
  {
    a == MovieTheater || a == ConcertEvent || a == GymFitness
  }

  function OtherCo2(activity: OtherActivity, sustainability: Sustainability, participants: int, quantity: real): real
  {
    SharedAmount(ActivityBase(activity), SustainabilityMultiplier(sustainability), quantity, participants, IsShared(activity))
  }

  lemma OtherNonNegative(activity: OtherActivity, sustainability: Sustainability, participants: int, quantity: real)
    requires participants >= 1 && quantity >= 0.0
    ensures OtherCo2(activity, sustainability, participants, quantity) >= 0.0
  {
    SharedAmountNonNegative(ActivityBase(activity), SustainabilityMultiplier(sustainability), quantity, participants, IsShared(activity));
  }

  /** Company only lowers the amount of a shared activity. */
  lemma UnsharedIgnoresParticipants(activity: OtherActivity, sustainability: Sustainability,
                                    participants: int, quantity: real)
    requires !IsShared(activity)
    ensures OtherCo2(activity, sustainability, participants, quantity)
            == OtherCo2(activity, sustainability, 1, quantity)
  {
  }

  lemma SharedActivitySplits(activity: OtherActivity, sustainability: Sustainability,
                             participants: int, quantity: real)
    requires IsShared(activity) && participants > 1
    ensures OtherCo2(activity, sustainability, participants, quantity) * participants as real
            == OtherCo2(activity, sustainability, 1, quantity)
  {
    SharedAmountSplits(ActivityBase(activity), SustainabilityMultiplier(sustainability), quantity, participants);
  }

  // ---------------------------------------------------------------------
  // The detailed-entry form

  /** The inputs of the detailed-entry form. */
  datatype DetailedForm = DetailedForm(
    activityName: string, category: string, co2Amount: real, date: Day,
    distance: real, duration: real, participants: int, location: string,
    purpose: string, efficiency: string, notes: string)

  datatype FormError = MissingDescription | NonPositiveAmount

  datatype FormResult = Accepted(data: EntryData) | Rejected(error: FormError)

  /** The entry the detailed form submits, or the first check it fails: a
      blank description, then an amount that is not positive. An accepted
      entry is storable and carries the form's fields: the stripped
      description, the date, category, amount, participants, notes and the
      submission time as given; distance and duration only when positive;
      the location as typed, only when it is not blank; purpose and
      efficiency only when chosen; no quantity, weather or attributes. */
  function DetailedEntry(f: DetailedForm, now: Timestamp): (r: FormResult)
    ensures r.Accepted? <==> Strip(f.activityName) != [] && f.co2Amount > 0.0
    ensures Strip(f.activityName) == [] ==> r == Rejected(MissingDescription)
    ensures Strip(f.activityName) != [] && f.co2Amount <= 0.0 ==> r == Rejected(NonPositiveAmount)
    ensures r.Accepted? ==>
              Storable(r.data)
              && r.data.activity == Some(Strip(f.activityName))
              && r.data.date == Some(f.date)
              && r.data.category == Some(f.category)
              && r.data.co2Amount == Some(f.co2Amount)
              && r.data.participants == Some(f.participants)
              && r.data.notes == Some(f.notes)
              && r.data.entryType == Some("detailed")
              && r.data.timestamp == Some(now)
    ensures r.Accepted? ==>
              r.data.distance == (if f.distance > 0.0 then Some(f.distance) else None)
              && r.data.duration == (if f.duration > 0.0 then Some(f.duration) else None)
              && r.data.location == (if Strip(f.location) != [] then Some(f.location) else None)
              && r.data.purpose == (if f.purpose != [] then Some(f.purpose) else None)
              && r.data.efficiency == (if f.efficiency != [] then Some(f.efficiency) else None)
              && r.data.quantity == None && r.data.weather == None && r.data.attributes == None
  {
    if Strip(f.activityName) == [] then Rejected(MissingDescription)
    else if f.co2Amount <= 0.0 then Rejected(NonPositiveAmount)
    else Accepted(EntryData(
      date := Some(f.date),
      activity := Some(Strip(f.activityName)),
      category := Some(f.category),
      co2Amount := Some(f.co2Amount),
      quantity := None,
      distance := if f.distance > 0.0 then Some(f.distance) else None,
      duration := if f.duration > 0.0 then Some(f.duration) else None,
      participants := Some(f.participants),
      location := if Strip(f.location) != [] then Some(f.location) else None,
      weather := None,
      purpose := if f.purpose != [] then Some(f.purpose) else None,
      efficiency := if f.efficiency != [] then Some(f.efficiency) else None,
      notes := Some(f.notes),
      entryType := Some("detailed"),
      attributes := None,
      timestamp := Some(now)))
  }

  // ---------------------------------------------------------------------
  // The entry history

  /** An entry passes the history filters: the chosen category (or "All")
      and the inclusive date range. */
  predicate Shown(e: Entry, selected: string, start: Day, end: Day)
  {
    (selected == "All" || e.category == selected) && start <= e.date <= end
  }

  /** The history list: sorted newest first, then filtered by category and
      by date range. */
  function HistoryView(data: seq<Entry>, selected: string, start: Day, end: Day): seq<Entry>
  {
    var sorted := SortByDate(data, true);
    var byCategory := if selected != "All" then Filter(sorted, (e: Entry) => e.category == selected) else sorted;
    Filter(byCategory, (e: Entry) => start <= e.date <= end)
  }

  /** The history shows, newest first, exactly the entries that pass the
      filters, each as often as it is stored. */
  lemma HistoryViewCorrect(data: seq<Entry>, selected: string, start: Day, end: Day)
    ensures var view := HistoryView(data, selected, start, end);
            SortedByDate(view, true)
            && (forall e :: e in view ==> Shown(e, selected, start, end))
            && multiset(view) == multiset(Filter(data, (e: Entry) => Shown(e, selected, start, end)))
  {
    var sorted := SortByDate(data, true);
    var pc := (e: Entry) => e.category == selected;
    var pd := (e: Entry) => start <= e.date <= end;
    var byCategory := if selected != "All" then Filter(sorted, pc) else sorted;
    var view := Filter(byCategory, pd);
    assert view == HistoryView(data, selected, start, end);
    if selected != "All" {
      FilterSorted(sorted, pc, true);
    }
    FilterSorted(byCategory, pd, true);
    forall x {
      HistoryCount(data, selected, start, end, x);
    }
  }

  /** Each entry occurs in the history as often as it is stored when it
      passes the filters, and not at all otherwise. */
  lemma HistoryCount(data: seq<Entry>, selected: string, start: Day, end: Day, x: Entry)
    ensures multiset(HistoryView(data, selected, start, end))[x]
            == multiset(Filter(data, (e: Entry) => Shown(e, selected, start, end)))[x]
  {
    var sorted := SortByDate(data, true);
    var pc := (e: Entry) => e.category == selected;
    var pd := (e: Entry) => start <= e.date <= end;
    var byCategory := if selected != "All" then Filter(sorted, pc) else sorted;
    assert HistoryView(data, selected, start, end) == Filter(byCategory, pd);
    FilterCount(byCategory, pd, x);
    FilterCount(sorted, pc, x);
    FilterCount(data, (e: Entry) => Shown(e, selected, start, end), x);
  }
}
