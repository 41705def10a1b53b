/**
 * The builder pattern of CleanCode/Patterns/Go/builder/Pizza.go. Both concrete
 * builders keep a `pizza` field that their setters update in place and return
 * the receiver; they differ only in AddPepperoni, which the Margherita builder
 * ignores. The builder's concrete type is kept as a constant `kind`, which is
 * what the director's type assertion inspects.
 */
module PizzaBuilders {

  /** The product. */
  datatype Pizza = Pizza(size: string, cheese: bool, pepperoni: bool, veggies: bool)

  /** Go's zero value of Pizza. */
  const ZeroPizza := Pizza("", false, false, false)

  /** The two concrete builder types. */
  datatype Kind = Margherita | Pepperoni

  class PizzaBuilder {
    const kind: Kind
    var pizza: Pizza

    /** A Margherita builder never puts pepperoni on its pizza. */
    ghost predicate Valid()
      reads this
    {
      kind == Margherita ==> !pizza.pepperoni
    }

    /** NewMargheritaPizzaBuilder (lines 29-31): an empty builder. */
    constructor NewMargherita()
      ensures kind == Margherita && pizza == ZeroPizza && Valid()
    {
      kind := Margherita;
      pizza := ZeroPizza;
    }

    /** NewPepperoniPizzaBuilder (lines 62-64): an empty builder. */
    constructor NewPepperoni()
      ensures kind == Pepperoni && pizza == ZeroPizza && Valid()
    {
      kind := Pepperoni;
      pizza := ZeroPizza;
    }

    /** SetSize: only the size changes. */
    method SetSize(size: string) returns (b: PizzaBuilder)
      requires Valid()
      modifies this
      ensures Valid() && b == this
      ensures pizza == old(pizza).(size := size)
    {
      pizza := pizza.(size := size);
      b := this;
    }

    /** AddCheese: only the cheese flag changes, and it becomes true. */
    method AddCheese() returns (b: PizzaBuilder)
      requires Valid()
      modifies this
      ensures Valid() && b == this
      ensures pizza == old(pizza).(cheese := true)
    {
      pizza := pizza.(cheese := true);
      b := this;
    }

    /** AddPepperoni: a no-op for Margherita, sets the flag for Pepperoni. */
    method AddPepperoni() returns (b: PizzaBuilder)
      requires Valid()
      modifies this
      ensures Valid() && b == this
      ensures kind == Margherita ==> pizza == old(pizza)
      ensures kind == Pepperoni ==> pizza == old(pizza).(pepperoni := true)
    {
      if kind == Pepperoni {
        pizza := pizza.(pepperoni := true);
      }
      b := this;
    }

    /** AddVeggies: only the veggies flag changes, and it becomes true. */
    method AddVeggies() returns (b: PizzaBuilder)
      requires Valid()
      modifies this
      ensures Valid() && b == this
      ensures pizza == old(pizza).(veggies := true)
    {
      pizza := pizza.(veggies := true);
      b := this;
    }

    /** Build: hands out the current pizza and changes nothing. */
    method Build() returns (p: Pizza)
      requires Valid()
      ensures p == pizza
      ensures kind == Margherita ==> !p.pepperoni
    {
      p := pizza;
    }
  }

  class Director {
    const builder: PizzaBuilder

    /** NewDirector (lines 96-98). */
    constructor (builder: PizzaBuilder)
      ensures this.builder == builder
    {
      this.builder := builder;
    }

    /** ConstructPizza: a large pizza with cheese and veggies, plus pepperoni
        only when the builder is the Pepperoni one. */
    method ConstructPizza()
      requires builder.Valid()
      modifies builder
      ensures builder.Valid()
      ensures builder.pizza == old(builder.pizza).(size := "Large", cheese := true, veggies := true,
                                                  pepperoni := old(builder.pizza.pepperoni) || builder.kind == Pepperoni)
    {
      var b := builder.SetSize("Large");
      b := b.AddCheese();
      b := b.AddVeggies();
      if builder.kind == Pepperoni {
        b := builder.AddPepperoni();
      }
    }
  }

  /** Every Add* is idempotent: a second call leaves the pizza as the first left
      it, so adding everything twice is the same as adding it once. */
  method AddTwice(b: PizzaBuilder)
    requires b.Valid()
    modifies b
    ensures b.Valid()
    ensures b.pizza == old(b.pizza).(cheese := true, veggies := true,
                                     pepperoni := old(b.pizza.pepperoni) || b.kind == Pepperoni)
  {
    var _ := b.AddCheese();
    var once := b.pizza;
    var _ := b.AddCheese();
    assert b.pizza == once;
    var _ := b.AddPepperoni();
    once := b.pizza;
    var _ := b.AddPepperoni();
    assert b.pizza == once;
    var _ := b.AddVeggies();
    once := b.pizza;
    var _ := b.AddVeggies();
    assert b.pizza == once;
  }

  /** main: a Margherita and a Pepperoni pizza from fresh builders. */
  method Example() returns (margherita: Pizza, pepperoni: Pizza)
    ensures margherita == Pizza("Large", true, false, true)
    ensures pepperoni == Pizza("Large", true, true, true)
  {
    var mb := new PizzaBuilder.NewMargherita();
    var director := new Director(mb);
    director.ConstructPizza();
    margherita := mb.Build();

    var pb := new PizzaBuilder.NewPepperoni();
    director := new Director(pb);
    director.ConstructPizza();
    pepperoni := pb.Build();
  }
}
