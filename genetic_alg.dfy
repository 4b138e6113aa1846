/**
 * The population lifecycle of the neuroevolution engine. Only the
 * bookkeeping exists: the manager remembers the population size it was
 * created with and counts generations. Grouping into species, scoring and
 * reproduction have no implementation, so the next generation is always
 * empty.
 */
module GeneticAlg {

  /** The observable state of a manager. */
  datatype Lifecycle = Lifecycle(populationSize: int, generationCount: int)

  /** The state of a manager created for the given population size. */
  function Started(populationSize: int): Lifecycle
  {
    Lifecycle(populationSize, 1)
  }

  /** The state after one generation transition. */
  function NextGeneration(s: Lifecycle): Lifecycle
  {
    s.(generationCount := s.generationCount + 1)
  }

  /** The state after n generation transitions. */
  function AfterGenerations(s: Lifecycle, n: nat): Lifecycle
  {
    if n == 0 then s else NextGeneration(AfterGenerations(s, n - 1))
  }

  /** n transitions add exactly n to the generation count and leave the
      population size alone. */
  lemma {:induction false} AfterGenerationsCounts(s: Lifecycle, n: nat)
    ensures AfterGenerations(s, n) == Lifecycle(s.populationSize, s.generationCount + n)
  {
    if n > 0 {
      AfterGenerationsCounts(s, n - 1);
    }
  }

  /** After n transitions a fresh manager is in generation 1 + n. */
  lemma FreshManagerGenerations(populationSize: int, n: nat)
    ensures AfterGenerations(Started(populationSize), n).generationCount == 1 + n
    ensures AfterGenerations(Started(populationSize), n).populationSize == populationSize
  {
    AfterGenerationsCounts(Started(populationSize), n);
  }

  class EvolutionManager {
    /** Fixed at construction and never reassigned. */
    const populationSize: int
    var generationCount: int

    ghost function State(): Lifecycle
      reads this
    {
      Lifecycle(populationSize, generationCount)
    }

    /** Generations are numbered from 1. */
    ghost predicate Valid()
      reads this
    {
      generationCount >= 1
    }

    constructor (populationSize: int)
      ensures Valid()
      ensures State() == Started(populationSize)
    {
      this.populationSize := populationSize;
      generationCount := 1;
    }

    /** Grouping into species has no implementation: no state changes. */
    method Speciation<Bird>(birds: seq<Bird>)
      requires Valid()
      ensures Valid()
      ensures unchanged(this)
    {
    }

    /** Fitness scoring has no implementation: no state changes. */
    method CalculateFitness<Bird>(birds: seq<Bird>)
      requires Valid()
      ensures Valid()
      ensures unchanged(this)
    {
    }

    /** Ends a generation: the new population is empty, whatever the dead
        birds were, and the generation count goes up by exactly one. */
    method CreateNextGeneration<Bird>(deadBirds: seq<Bird>) returns (newBirds: seq<Bird>)
      requires Valid()
      modifies this
      ensures Valid()
      ensures newBirds == []
      ensures State() == NextGeneration(old(State()))
    {
      newBirds := [];
      generationCount := generationCount + 1;
    }
  }
}
