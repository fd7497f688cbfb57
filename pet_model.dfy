/**
 * The pet document: its fields and the defaults a newly created pet gets.
 * `PetState` is the stored value of a document; `Pet` is a fetched document
 * whose fields the route handlers update in place before saving it back.
 */
module PetModel {

  datatype PetState = PetState(
    kind: string,
    name: string,
    level: int,
    xp: int,
    hunger: int,
    happiness: int,
    energy: int,
    evolutionStage: int)

  /** A stat that the actions keep between 0 and 100. */
  predicate InStatRange(v: int) { 0 <= v <= 100 }

  /**
   * The state a pet keeps between requests: xp below the level-up threshold,
   * the three stats in range, level and stage at least 1.
   */
  predicate AtRest(p: PetState)
  {
    && 0 <= p.xp < 100
    && InStatRange(p.hunger) && InStatRange(p.happiness) && InStatRange(p.energy)
    && p.level >= 1 && p.evolutionStage >= 1
  }

  /** The value of `new Pet({ userId })`: every field at its schema default. */
  function DefaultPet(): (p: PetState)
    ensures p.kind == "cat" && p.name == "Fluffy"
    ensures p.level == 1 && p.xp == 0
    ensures p.hunger == 100 && p.happiness == 100 && p.energy == 100
    ensures p.evolutionStage == 1
    ensures AtRest(p)
  {
    PetState("cat", "Fluffy", 1, 0, 100, 100, 100, 1)
  }

  class Pet {
    var kind: string
    var name: string
    var level: int
    var xp: int
    var hunger: int
    var happiness: int
    var energy: int
    var evolutionStage: int

    /** The document's current field values. */
    function State(): PetState
      reads this
    {
      PetState(kind, name, level, xp, hunger, happiness, energy, evolutionStage)
    }

    /** `new Pet({ userId })`. */
    constructor ()
      ensures State() == DefaultPet()
    {
      kind, name := "cat", "Fluffy";
      level, xp := 1, 0;
      hunger, happiness, energy := 100, 100, 100;
      evolutionStage := 1;
    }

    /** A document hydrated from the stored value `s` by `Pet.findOne`. */
    constructor Load(s: PetState)
      ensures State() == s
    {
      kind, name := s.kind, s.name;
      level, xp := s.level, s.xp;
      hunger, happiness, energy := s.hunger, s.happiness, s.energy;
      evolutionStage := s.evolutionStage;
    }
  }
}
