/**
 * The abstract factory of CleanCode/Patterns/Go/abstractFactory/mine.go: four
 * stateless factories, each of which produces either a car or a motorcycle and
 * nil for the other product; `clientCode` prints one line per product kind.
 */
module VehicleFactory {

  datatype Option<T> = None | Some(value: T)

  datatype Car = Tesla(model: string) | BMW(model: string)
  datatype Motorcycle = HarleyDavidson(model: string) | Yamaha(model: string)

  datatype Factory = TeslaFactory | BMWFactory | HarleyDavidsonFactory | YamahaFactory

  const NoCars: string := "This factory does not produce cars."
  const NoMotorcycles: string := "This factory does not produce motorcycles."

  /** Car.Drive: the line starts "Driving a " and ends with the model. */
  function Drive(c: Car): (line: string)
    ensures |line| > |c.model| + 10
    ensures line[..10] == "Driving a " && line[|line| - |c.model|..] == c.model
  {
    match c
    case Tesla(m) => "Driving a Tesla " + m
    case BMW(m) => "Driving a BMW " + m
  }

  /** Motorcycle.Ride: the line starts "Riding a " and ends with the model. */
  function Ride(m: Motorcycle): (line: string)
    ensures |line| > |m.model| + 9
    ensures line[..9] == "Riding a " && line[|line| - |m.model|..] == m.model
  {
    match m
    case HarleyDavidson(model) => "Riding a Harley-Davidson " + model
    case Yamaha(model) => "Riding a Yamaha " + model
  }

  /** The printed line names the car exactly: brand and model can be read back from it. */
  lemma DriveInjective(a: Car, b: Car)
    requires Drive(a) == Drive(b)
    ensures a == b
  {
    var d := Drive(a);
    assert d[10] == (if a.Tesla? then 'T' else 'B');
    assert d[10] == (if b.Tesla? then 'T' else 'B');
    var n := if a.Tesla? then |"Driving a Tesla "| else |"Driving a BMW "|;
    assert a.model == d[n..];
    assert b.model == d[n..];
  }

  /** The same for motorcycles and their ride line. */
  lemma RideInjective(a: Motorcycle, b: Motorcycle)
    requires Ride(a) == Ride(b)
    ensures a == b
  {
    var r := Ride(a);
    assert r[9] == (if a.HarleyDavidson? then 'H' else 'Y');
    assert r[9] == (if b.HarleyDavidson? then 'H' else 'Y');
    var n := if a.HarleyDavidson? then |"Riding a Harley-Davidson "| else |"Riding a Yamaha "|;
    assert a.model == r[n..];
    assert b.model == r[n..];
  }

  /** VehicleFactory.CreateCar: only the two car factories make a car, each of its own brand. */
  function CreateCar(f: Factory): (car: Option<Car>)
    ensures car.Some? <==> f == TeslaFactory || f == BMWFactory
    ensures car.Some? ==> (car.value.Tesla? <==> f == TeslaFactory)
  {
    match f
    case TeslaFactory => Some(Tesla("Model S"))
    case BMWFactory => Some(BMW("X5"))
    case HarleyDavidsonFactory => None
    case YamahaFactory => None
  }

  /** VehicleFactory.CreateMotorcycle: only the two motorcycle factories make a
      motorcycle, each of its own brand. */
  function CreateMotorcycle(f: Factory): (motorcycle: Option<Motorcycle>)
    ensures motorcycle.Some? <==> f == HarleyDavidsonFactory || f == YamahaFactory
    ensures motorcycle.Some? ==> (motorcycle.value.HarleyDavidson? <==> f == HarleyDavidsonFactory)
  {
    match f
    case TeslaFactory => None
    case BMWFactory => None
    case HarleyDavidsonFactory => Some(HarleyDavidson("Street 750"))
    case YamahaFactory => Some(Yamaha("YZF-R3"))
  }

  /** Each factory makes exactly one kind of product, and of its own brand. */
  lemma ExactlyOneProduct(f: Factory)
    ensures CreateCar(f).Some? != CreateMotorcycle(f).Some?
    ensures CreateCar(f).Some? <==> f == TeslaFactory || f == BMWFactory
    ensures f == TeslaFactory ==> CreateCar(f) == Some(Tesla("Model S"))
    ensures f == BMWFactory ==> CreateCar(f) == Some(BMW("X5"))
    ensures f == HarleyDavidsonFactory ==> CreateMotorcycle(f) == Some(HarleyDavidson("Street 750"))
    ensures f == YamahaFactory ==> CreateMotorcycle(f) == Some(Yamaha("YZF-R3"))
  {
  }

  /** clientCode: the two lines printed for a factory. */
  function ClientCode(f: Factory): (lines: seq<string>)
    ensures |lines| == 2
    ensures CreateCar(f).Some? ==> lines[0] == Drive(CreateCar(f).value)
    ensures CreateCar(f).None? ==> lines[0] == NoCars
    ensures CreateMotorcycle(f).Some? ==> lines[1] == Ride(CreateMotorcycle(f).value)
    ensures CreateMotorcycle(f).None? ==> lines[1] == NoMotorcycles
  {
    var carLine := match CreateCar(f) case Some(c) => Drive(c) case None => NoCars;
    var motorcycleLine := match CreateMotorcycle(f) case Some(m) => Ride(m) case None => NoMotorcycles;
    [carLine, motorcycleLine]
  }

  /** Every factory prints exactly one refusal line, never two and never none. */
  lemma OneRefusalPerFactory(f: Factory)
    ensures (ClientCode(f)[0] == NoCars) != (ClientCode(f)[1] == NoMotorcycles)
  {
    ExactlyOneProduct(f);
    var lines := ClientCode(f);
    if CreateCar(f).Some? {
      assert lines[0] != NoCars by {
        assert lines[0][0] == 'D' != NoCars[0];
      }
    } else {
      assert lines[1] != NoMotorcycles by {
        assert lines[1][0] == 'R' != NoMotorcycles[0];
      }
    }
  }

  /** The Tesla factory's two lines. */
  lemma TeslaOutput()
    ensures ClientCode(TeslaFactory) == ["Driving a Tesla Model S", NoMotorcycles]
  {
    assert Drive(Tesla("Model S")) == "Driving a Tesla Model S";
  }

  /** The BMW factory's two lines. */
  lemma BMWOutput()
    ensures ClientCode(BMWFactory) == ["Driving a BMW X5", NoMotorcycles]
  {
    assert Drive(BMW("X5")) == "Driving a BMW X5";
  }

  /** The Harley-Davidson factory's two lines. */
  lemma HarleyDavidsonOutput()
    ensures ClientCode(HarleyDavidsonFactory) == [NoCars, "Riding a Harley-Davidson Street 750"]
  {
    assert Ride(HarleyDavidson("Street 750")) == "Riding a Harley-Davidson Street 750";
  }

  /** The Yamaha factory's two lines. */
  lemma YamahaOutput()
    ensures ClientCode(YamahaFactory) == [NoCars, "Riding a Yamaha YZF-R3"]
  {
    assert Ride(Yamaha("YZF-R3")) == "Riding a Yamaha YZF-R3";
  }

  /** main: the four factories' output in order. */
  lemma MainOutput()
    ensures ClientCode(TeslaFactory) == ["Driving a Tesla Model S", NoMotorcycles]
    ensures ClientCode(BMWFactory) == ["Driving a BMW X5", NoMotorcycles]
    ensures ClientCode(HarleyDavidsonFactory) == [NoCars, "Riding a Harley-Davidson Street 750"]
    ensures ClientCode(YamahaFactory) == [NoCars, "Riding a Yamaha YZF-R3"]
  {
    TeslaOutput();
    BMWOutput();
    HarleyDavidsonOutput();
    YamahaOutput();
  }
}
