/**
 * The pet routes. GET returns the user's pet, creating one with the defaults
 * when there is none; POST /xp, /play, /feed and /sleep fetch the pet, update
 * its fields in place and save it. Each update is specified by a function on
 * the stored value, and the lemmas below state what each action does to a pet.
 */
module PetRoutes {
  import opened Lists
  import opened PetModel
  import opened Records

  /** The xp at which a pet levels up. */
  const LevelUpXp := 100

  // ---- The four updates, on stored values ----

  /** The value `pet` has after POST /xp with body `{ xp: amount }`. */
  function AfterXp(p: PetState, amount: int): PetState
  {
    var xp := p.xp + amount;
    if xp >= LevelUpXp then p.(level := p.level + 1, xp := 0) else p.(xp := xp)
  }

  /** The value `pet` has after POST /play. */
  function AfterPlay(p: PetState): PetState
  {
    var played := p.(xp := p.xp + 10, happiness := Min(100, p.happiness + 10), energy := Max(0, p.energy - 15));
    if played.xp >= LevelUpXp then
      var level := p.level + 1;
      played.(level := level, xp := 0,
              evolutionStage := if level % 5 == 0 then p.evolutionStage + 1 else p.evolutionStage)
    else
      played
  }

  /** The value `pet` has after POST /feed. */
  function AfterFeed(p: PetState): PetState
  {
    p.(hunger := Min(100, p.hunger + 20), happiness := Min(100, p.happiness + 5))
  }

  /** The value `pet` has after POST /sleep. */
  function AfterSleep(p: PetState): PetState
  {
    p.(energy := 100)
  }

  // ---- The handlers' in-place updates of a fetched document ----

  method GrantXp(pet: Pet, amount: int)
    modifies pet
    ensures pet.State() == AfterXp(old(pet.State()), amount)
  {
    pet.xp := pet.xp + amount;
    if pet.xp >= LevelUpXp {
      pet.level := pet.level + 1;
      pet.xp := 0;
    }
  }

  method Play(pet: Pet)
    modifies pet
    ensures pet.State() == AfterPlay(old(pet.State()))
  {
    pet.xp := pet.xp + 10;
    pet.happiness := Min(100, pet.happiness + 10);
    pet.energy := Max(0, pet.energy - 15);
    if pet.xp >= LevelUpXp {
      pet.level := pet.level + 1;
      pet.xp := 0;
      if pet.level % 5 == 0 {
        pet.evolutionStage := pet.evolutionStage + 1;
      }
    }
  }

  method Feed(pet: Pet)
    modifies pet
    ensures pet.State() == AfterFeed(old(pet.State()))
  {
    pet.hunger := Min(100, pet.hunger + 20);
    pet.happiness := Min(100, pet.happiness + 5);
  }

  method Sleep(pet: Pet)
    modifies pet
    ensures pet.State() == AfterSleep(old(pet.State()))
  {
    pet.energy := 100;
  }

  // ---- What each action does ----

  /**
   * An xp grant adds `amount`; when that reaches 100 the pet gains exactly one
   * level and xp restarts at 0, with nothing carried over. The stage, the
   * stats and the identity never change.
   */
  lemma XpGrantEffect(p: PetState, amount: int)
    ensures var q := AfterXp(p, amount);
      && (p.xp + amount >= 100 ==> q.level == p.level + 1 && q.xp == 0)
      && (p.xp + amount < 100 ==> q.level == p.level && q.xp == p.xp + amount)
      && q.evolutionStage == p.evolutionStage
      && q.hunger == p.hunger && q.happiness == p.happiness && q.energy == p.energy
      && q.kind == p.kind && q.name == p.name
  {
  }

  /**
   * Play adds 10 xp, 10 happiness up to 100 and takes 15 energy down to 0,
   * leaving hunger alone; a level-up happens exactly when the new xp reaches
   * 100, and the stage goes up exactly when that level-up lands on a multiple of 5.
   */
  lemma PlayEffect(p: PetState)
    ensures var q := AfterPlay(p);
      && q.happiness == Min(100, p.happiness + 10)
      && q.energy == Max(0, p.energy - 15)
      && q.hunger == p.hunger && q.kind == p.kind && q.name == p.name
      && (p.xp + 10 >= 100 ==> q.level == p.level + 1 && q.xp == 0)
      && (p.xp + 10 < 100 ==> q.level == p.level && q.xp == p.xp + 10)
      && (q.evolutionStage == p.evolutionStage + 1 <==> p.xp + 10 >= 100 && q.level % 5 == 0)
      && (q.evolutionStage == p.evolutionStage + 1 || q.evolutionStage == p.evolutionStage)
  {
  }

  /** Feed raises hunger by 20 and happiness by 5, both capped at 100, and changes nothing else. */
  lemma FeedEffect(p: PetState)
    ensures AfterFeed(p) == PetState(p.kind, p.name, p.level, p.xp,
      Min(100, p.hunger + 20), Min(100, p.happiness + 5), p.energy, p.evolutionStage)
  {
  }

  /** Sleep restores full energy, changes nothing else, and a second sleep changes nothing. */
  lemma SleepEffect(p: PetState)
    ensures AfterSleep(p).energy == 100
    ensures AfterSleep(p).(energy := p.energy) == p
    ensures AfterSleep(AfterSleep(p)) == AfterSleep(p)
  {
  }

  // ---- The pet as a state machine ----

  /** The four pet actions. */
  datatype Action = GrantXpAction(amount: int) | PlayAction | FeedAction | SleepAction

  function Apply(p: PetState, a: Action): PetState
  {
    match a
    case GrantXpAction(n) => AfterXp(p, n)
    case PlayAction => AfterPlay(p)
    case FeedAction => AfterFeed(p)
    case SleepAction => AfterSleep(p)
  }

  /** An action the routes can be asked for that keeps a resting pet at rest: xp grants must not be negative. */
  predicate Admissible(a: Action)
  {
    a.GrantXpAction? ==> a.amount >= 0
  }

  /**
   * One action keeps a resting pet at rest, and level and stage each stay
   * put or go up by exactly one.
   */
  lemma ActionKeepsAtRest(p: PetState, a: Action)
    requires AtRest(p) && Admissible(a)
    ensures AtRest(Apply(p, a))
    ensures Apply(p, a).level == p.level || Apply(p, a).level == p.level + 1
    ensures Apply(p, a).evolutionStage == p.evolutionStage || Apply(p, a).evolutionStage == p.evolutionStage + 1
  {
  }

  /** A negative grant can take xp below 0: the xp route has no lower bound. */
  lemma NegativeGrantLeavesRest()
    ensures AtRest(DefaultPet()) && !AtRest(AfterXp(DefaultPet(), -1))
  {
  }

  function ApplyAll(p: PetState, actions: seq<Action>): PetState
    decreases |actions|
  {
    if actions == [] then p else ApplyAll(Apply(p, actions[0]), actions[1..])
  }

  /**
   * Over any sequence of admissible actions a resting pet stays at rest and
   * neither its level nor its evolution stage ever decreases.
   */
  lemma {:induction false} ActionsKeepAtRest(p: PetState, actions: seq<Action>)
    requires AtRest(p)
    requires forall i :: 0 <= i < |actions| ==> Admissible(actions[i])
    ensures AtRest(ApplyAll(p, actions))
    ensures ApplyAll(p, actions).level >= p.level
    ensures ApplyAll(p, actions).evolutionStage >= p.evolutionStage
    decreases |actions|
  {
    if actions != [] {
      ActionKeepsAtRest(p, actions[0]);
      ActionsKeepAtRest(Apply(p, actions[0]), actions[1..]);
    }
  }

  /**
   * Level-ups are single steps: 95 xp and a play give level 2 with 0 xp, and
   * a 120 xp grant at level 4 with 90 xp gives level 5 with 0 xp and no
   * evolution, since only play evolves a pet.
   */
  lemma SingleStepLevelUp()
    ensures var p := DefaultPet().(xp := 95);
      AfterPlay(p).level == 2 && AfterPlay(p).xp == 0 && AfterPlay(p).evolutionStage == 1
    ensures var p := DefaultPet().(level := 4, xp := 90);
      AfterXp(p, 120).level == 5 && AfterXp(p, 120).xp == 0 && AfterXp(p, 120).evolutionStage == 1
  {
  }

  // ---- The routes over the per-user store ----

  const NotFoundMessage := "Pet not found"

  /**
   * A route's response: the saved pet, a 404 with its message for a missing pet, or a 500 from
   * the handler's catch (the feed and sleep handlers dereference a missing pet).
   */
  datatype PetResponse = Found(pet: PetState) | NotFound(message: string) | ServerError

  /** The pet collection, one document per user. */
  class PetStore {
    var pets: map<UserId, PetState>

    ghost predicate AllAtRest()
      reads this
    {
      forall u :: u in pets ==> AtRest(pets[u])
    }

    constructor ()
      ensures pets == map[]
    {
      pets := map[];
    }

    /** GET /pet: the stored pet, or a new default pet that is saved first. */
    method Get(user: UserId) returns (r: PetState)
      modifies this
      ensures user in old(pets) ==> r == old(pets)[user] && pets == old(pets)
      ensures user !in old(pets) ==> r == DefaultPet() && pets == old(pets)[user := DefaultPet()]
      ensures old(AllAtRest()) ==> AllAtRest()
    {
      if user in pets {
        r := pets[user];
      } else {
        var pet := new Pet();
        pets := pets[user := pet.State()];
        r := pet.State();
      }
    }

    /** POST /pet/xp with body `{ xp: amount }`. */
    method PostXp(user: UserId, amount: int) returns (r: PetResponse)
      modifies this
      ensures user !in old(pets) ==> r == NotFound(NotFoundMessage) && pets == old(pets)
      ensures user in old(pets) ==>
        && r == Found(AfterXp(old(pets)[user], amount))
        && pets == old(pets)[user := r.pet]
      ensures old(AllAtRest()) && amount >= 0 ==> AllAtRest()
    {
      if user !in pets {
        return NotFound(NotFoundMessage);
      }
      var pet := new Pet.Load(pets[user]);
      GrantXp(pet, amount);
      if AllAtRest() && amount >= 0 {
        ActionKeepsAtRest(pets[user], GrantXpAction(amount));
      }
      pets := pets[user := pet.State()];
      r := Found(pet.State());
    }

    /** POST /pet/play. */
    method PostPlay(user: UserId) returns (r: PetResponse)
      modifies this
      ensures user !in old(pets) ==> r == NotFound(NotFoundMessage) && pets == old(pets)
      ensures user in old(pets) ==>
        && r == Found(AfterPlay(old(pets)[user]))
        && pets == old(pets)[user := r.pet]
      ensures old(AllAtRest()) ==> AllAtRest()
    {
      if user !in pets {
        return NotFound(NotFoundMessage);
      }
      var pet := new Pet.Load(pets[user]);
      Play(pet);
      if AllAtRest() {
        ActionKeepsAtRest(pets[user], PlayAction);
      }
      pets := pets[user := pet.State()];
      r := Found(pet.State());
    }

    /** POST /pet/feed. */
    method PostFeed(user: UserId) returns (r: PetResponse)
      modifies this
      ensures user !in old(pets) ==> r == ServerError && pets == old(pets)
      ensures user in old(pets) ==>
        && r == Found(AfterFeed(old(pets)[user]))
        && pets == old(pets)[user := r.pet]
      ensures old(AllAtRest()) ==> AllAtRest()
    {
      if user !in pets {
        return ServerError;
      }
      var pet := new Pet.Load(pets[user]);
      Feed(pet);
      if AllAtRest() {
        ActionKeepsAtRest(pets[user], FeedAction);
      }
      pets := pets[user := pet.State()];
      r := Found(pet.State());
    }

    /** POST /pet/sleep. */
    method PostSleep(user: UserId) returns (r: PetResponse)
      modifies this
      ensures user !in old(pets) ==> r == ServerError && pets == old(pets)
      ensures user in old(pets) ==>
        && r == Found(AfterSleep(old(pets)[user]))
        && pets == old(pets)[user := r.pet]
      ensures old(AllAtRest()) ==> AllAtRest()
    {
      if user !in pets {
        return ServerError;
      }
      var pet := new Pet.Load(pets[user]);
      Sleep(pet);
      if AllAtRest() {
        ActionKeepsAtRest(pets[user], SleepAction);
      }
      pets := pets[user := pet.State()];
      r := Found(pet.State());
    }
  }
}
